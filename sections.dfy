/**
 * The section segmenter of `parse_resume_sections`: one pass over the lines
 * of a resume, with the current section label as its only state. A short
 * line naming a section switches the label and is dropped; every other
 * non-blank line is appended, stripped and newline-terminated, to the
 * current section, where the three labels without a key of their own
 * (projects, certifications, achievements) write into `other`.
 */
module Sections {
  import opened Wrappers
  import opened Text
  import opened Lists

  /** The six keys of the dictionary the segmenter returns. */
  datatype Section = Contact | Summary | Experience | Education | Skills | Other

  /**
   * The section a header line can announce: one with a key of its own, or
   * one of the three that write into `other`.
   */
  datatype Label = Keyed(section: Section) | Projects | Certifications | Achievements

  /** The key as the source spells it. */
  function SectionName(k: Section): string
  {
    match k
    case Contact => "contact"
    case Summary => "summary"
    case Experience => "experience"
    case Education => "education"
    case Skills => "skills"
    case Other => "other"
  }

  /**
   * The header patterns in the order they are tried. Each pattern is an
   * alternation of plain words, so it matches a lower-cased line exactly
   * when one of its words occurs in it.
   */
  const Patterns: seq<(Label, seq<string>)> := [
    (Keyed(Contact), ["contact", "personal", "info"]),
    (Keyed(Summary), ["summary", "objective", "profile", "about"]),
    (Keyed(Experience), ["experience", "work", "employment", "career", "professional"]),
    (Keyed(Education), ["education", "academic", "qualification", "degree"]),
    (Keyed(Skills), ["skills", "technical", "competenc", "abilities"]),
    (Projects, ["projects", "portfolio"]),
    (Certifications, ["certification", "certificate", "license"]),
    (Achievements, ["achievement", "award", "honor", "accomplishment"])
  ]

  /** The keys of the result, in the dictionary's insertion order. */
  const Keys: seq<Section> := [Contact, Summary, Experience, Education, Skills, Other]

  /** Every key of the result, as a set. */
  const AllSections: set<Section> := {Contact, Summary, Experience, Education, Skills, Other}

  /** Every section is a key of the result, in the set and in the order alike. */
  lemma InAllSections(k: Section)
    ensures k in AllSections && k in Keys
  {
  }

  /** A dictionary holding every key. */
  predicate Complete(sections: map<Section, string>)
  {
    forall k: Section :: k in sections
  }

  /** A header line must be shorter than this. */
  const MaxHeaderLength: nat := 50

  /** The key a content line read under label `l` is appended to. */
  function Route(l: Label): Section
  {
    if l.Keyed? then l.section else Other
  }

  /** The label of the first pattern in `pats` that matches `lower`. */
  function FirstMatch(lower: string, pats: seq<(Label, seq<string>)>): (r: Option<Label>)
    ensures r.Some? ==> exists j :: 0 <= j < |pats| && pats[j].0 == r.value
  {
    if |pats| == 0 then None
    else if ContainsAny(lower, pats[0].1) then Some(pats[0].0)
    else FirstMatch(lower, pats[1..])
  }

  /** The label a stripped line announces, if it is a header. */
  function HeaderLabel(line: string): Option<Label>
  {
    if |line| < MaxHeaderLength then FirstMatch(Lower(line), Patterns) else None
  }

  /** What one line of the resume is to the segmenter. */
  datatype LineKind = Blank | Header(heading: Label) | Content(text: string)

  /** A line is blank once stripped, or a header, or content kept stripped. */
  function Classify(raw: string): LineKind
  {
    var line := Strip(raw);
    if line == "" then Blank
    else match HeaderLabel(line)
      case Some(l) => Header(l)
      case None => Content(line)
  }

  function Classes(lines: seq<string>): (kinds: seq<LineKind>)
    ensures |kinds| == |lines|
  {
    seq(|lines|, i requires 0 <= i < |lines| => Classify(lines[i]))
  }

  /** The content lines, in order. */
  function Kept(kinds: seq<LineKind>): seq<string>
  {
    if kinds == [] then []
    else
      var last := kinds[|kinds| - 1];
      Kept(kinds[..|kinds| - 1]) + (if last.Content? then [last.text] else [])
  }

  /** The label in force after reading `kinds`. */
  function LastHeader(kinds: seq<LineKind>): Label
  {
    if kinds == [] then Keyed(Other)
    else
      var last := kinds[|kinds| - 1];
      if last.Header? then last.heading else LastHeader(kinds[..|kinds| - 1])
  }

  /**
   * The content lines that land in key `k`: those read while the label in
   * force routes to `k`.
   */
  function Body(kinds: seq<LineKind>, k: Section): seq<string>
  {
    if kinds == [] then []
    else
      var prefix, last := kinds[..|kinds| - 1], kinds[|kinds| - 1];
      Body(prefix, k) + (if last.Content? && Route(LastHeader(prefix)) == k then [last.text] else [])
  }

  /** The six sections after reading `kinds`. */
  function SectionsAfter(kinds: seq<LineKind>): map<Section, string>
  {
    map k | k in AllSections :: Terminated(Body(kinds, k))
  }

  /** The dictionary `parse_resume_sections` returns for `text`. */
  function SectionsOf(text: string): (sections: map<Section, string>)
    ensures Complete(sections)
  {
    assert forall k :: k in AllSections by {
      forall k: Section { InAllSections(k); }
    }
    SectionsAfter(Classes(Split(text, '\n')))
  }

  // ---------------------------------------------------------------------------
  // The header rule

  lemma {:induction false} FirstMatchChoosesFirst(s: string, pats: seq<(Label, seq<string>)>, k: nat)
    requires k < |pats|
    requires forall a, b :: 0 <= a < b < |pats| ==> pats[a].0 != pats[b].0
    ensures FirstMatch(s, pats) == Some(pats[k].0)
        <==> ContainsAny(s, pats[k].1) && forall j :: 0 <= j < k ==> !ContainsAny(s, pats[j].1)
  {
    if !ContainsAny(s, pats[0].1) {
      var rest := pats[1..];
      if k > 0 {
        FirstMatchChoosesFirst(s, rest, k - 1);
        assert forall j :: 0 < j < k ==> pats[j] == rest[j - 1];
      } else if FirstMatch(s, rest).Some? {
        var j :| 0 <= j < |rest| && rest[j].0 == FirstMatch(s, rest).value;
        assert pats[j + 1].0 != pats[0].0;
      }
    }
  }

  lemma {:induction false} FirstMatchNone(s: string, pats: seq<(Label, seq<string>)>)
    ensures FirstMatch(s, pats) == None <==> forall j :: 0 <= j < |pats| ==> !ContainsAny(s, pats[j].1)
  {
    if |pats| > 0 && !ContainsAny(s, pats[0].1) {
      FirstMatchNone(s, pats[1..]);
      forall j | 0 < j < |pats| ensures pats[j] == pats[1..][j - 1] { }
    }
  }

  /**
   * A stripped line is a header for the k-th pattern exactly when it is
   * shorter than 50 characters, its lower-cased form matches that pattern,
   * and it matches none of the patterns tried before it.
   */
  lemma HeaderRule(line: string, k: nat)
    requires k < |Patterns|
    ensures HeaderLabel(line) == Some(Patterns[k].0)
        <==> && |line| < MaxHeaderLength
             && ContainsAny(Lower(line), Patterns[k].1)
             && forall j :: 0 <= j < k ==> !ContainsAny(Lower(line), Patterns[j].1)
  {
    FirstMatchChoosesFirst(Lower(line), Patterns, k);
  }

  /** A stripped line is no header exactly when it is long or matches no pattern. */
  lemma NoHeaderRule(line: string)
    ensures HeaderLabel(line) == None
        <==> |line| >= MaxHeaderLength || forall j :: 0 <= j < |Patterns| ==> !ContainsAny(Lower(line), Patterns[j].1)
  {
    FirstMatchNone(Lower(line), Patterns);
  }

  /** No header line ever switches the state back to `other`. */
  lemma HeaderNeverOther(line: string)
    ensures HeaderLabel(line) != Some(Keyed(Other))
  {
  }

  // ---------------------------------------------------------------------------
  // The state and the sections

  /** Before any header line has been read, the label in force is `other`. */
  lemma {:induction false} NoHeaderMeansOther(kinds: seq<LineKind>)
    requires forall i :: 0 <= i < |kinds| ==> !kinds[i].Header?
    ensures LastHeader(kinds) == Keyed(Other)
  {
    if kinds != [] {
      var prefix := kinds[..|kinds| - 1];
      assert forall i :: 0 <= i < |prefix| ==> prefix[i] == kinds[i];
      NoHeaderMeansOther(prefix);
    }
  }

  /** Otherwise the label in force is that of the last header line read. */
  lemma {:induction false} LastHeaderIsLatest(kinds: seq<LineKind>, i: nat)
    requires i < |kinds| && kinds[i].Header?
    requires forall j :: i < j < |kinds| ==> !kinds[j].Header?
    ensures LastHeader(kinds) == kinds[i].heading
  {
    if i < |kinds| - 1 {
      var prefix := kinds[..|kinds| - 1];
      assert forall j :: 0 <= j < |prefix| ==> prefix[j] == kinds[j];
      LastHeaderIsLatest(prefix, i);
    }
  }

  /** Reading one more line: how the state, the content and each section change. */
  lemma BodyStep(kinds: seq<LineKind>, kind: LineKind, k: Section)
    ensures Body(kinds + [kind], k)
         == Body(kinds, k) + (if kind.Content? && Route(LastHeader(kinds)) == k then [kind.text] else [])
    ensures LastHeader(kinds + [kind]) == if kind.Header? then kind.heading else LastHeader(kinds)
    ensures Kept(kinds + [kind]) == Kept(kinds) + (if kind.Content? then [kind.text] else [])
  {
    assert (kinds + [kind])[..|kinds|] == kinds;
  }

  /** How many times `x` occurs, over the six sections together. */
  function CountInSections(kinds: seq<LineKind>, x: string): nat
  {
    multiset(Body(kinds, Contact))[x] + multiset(Body(kinds, Summary))[x]
    + multiset(Body(kinds, Experience))[x] + multiset(Body(kinds, Education))[x]
    + multiset(Body(kinds, Skills))[x] + multiset(Body(kinds, Other))[x]
  }

  /** The last line read, counted for one string. */
  lemma CountStep(kinds: seq<LineKind>, k: Section, x: string)
    requires kinds != []
    ensures var prefix, last := kinds[..|kinds| - 1], kinds[|kinds| - 1];
      && multiset(Body(kinds, k))[x]
         == multiset(Body(prefix, k))[x] + (if last.Content? && Route(LastHeader(prefix)) == k && last.text == x then 1 else 0)
      && multiset(Kept(kinds))[x]
         == multiset(Kept(prefix))[x] + (if last.Content? && last.text == x then 1 else 0)
  {
  }

  lemma {:induction false} CountsAgree(kinds: seq<LineKind>, x: string)
    ensures CountInSections(kinds, x) == multiset(Kept(kinds))[x]
  {
    if kinds != [] {
      CountsAgree(kinds[..|kinds| - 1], x);
      CountStep(kinds, Contact, x);
      CountStep(kinds, Summary, x);
      CountStep(kinds, Experience, x);
      CountStep(kinds, Education, x);
      CountStep(kinds, Skills, x);
      CountStep(kinds, Other, x);
    }
  }

  /**
   * Conservation: every content line lands in exactly one of the six
   * sections, and nothing else does.
   */
  lemma BodiesPartitionKept(kinds: seq<LineKind>)
    ensures multiset(Body(kinds, Contact)) + multiset(Body(kinds, Summary))
          + multiset(Body(kinds, Experience)) + multiset(Body(kinds, Education))
          + multiset(Body(kinds, Skills)) + multiset(Body(kinds, Other))
         == multiset(Kept(kinds))
  {
    forall x ensures CountInSections(kinds, x) == multiset(Kept(kinds))[x] {
      CountsAgree(kinds, x);
    }
  }

  /** Each section keeps its lines in the order they were read. */
  lemma {:induction false} BodyInReadingOrder(kinds: seq<LineKind>, k: Section)
    ensures IsSubsequence(Body(kinds, k), Kept(kinds))
  {
    if kinds != [] {
      var prefix, last := kinds[..|kinds| - 1], kinds[|kinds| - 1];
      BodyInReadingOrder(prefix, k);
      var b, kept := Body(kinds, k), Kept(kinds);
      if last.Content? {
        assert kept[..|kept| - 1] == Kept(prefix) && kept[|kept| - 1] == last.text;
        if Route(LastHeader(prefix)) == k {
          assert b[..|b| - 1] == Body(prefix, k) && b[|b| - 1] == last.text;
        } else {
          assert b == Body(prefix, k);
        }
      } else {
        assert b == Body(prefix, k) && kept == Kept(prefix);
      }
    }
  }

  /**
   * One step of the segmenter, for one key: a content line is appended,
   * with its newline, to the key its label routes to, and to no other.
   */
  lemma SectionStep(kinds: seq<LineKind>, kind: LineKind, k: Section)
    ensures if kind.Content? && Route(LastHeader(kinds)) == k
            then Terminated(Body(kinds + [kind], k)) == Terminated(Body(kinds, k)) + kind.text + "\n"
            else Terminated(Body(kinds + [kind], k)) == Terminated(Body(kinds, k))
  {
    BodyStep(kinds, kind, k);
    var b := Body(kinds, k);
    if kind.Content? && Route(LastHeader(kinds)) == k {
      assert (b + [kind.text])[..|b|] == b;
    } else {
      assert b + [] == b;
    }
  }

  /**
   * The segmenter's state after reading `kinds`: the label in force, and
   * every key holding its section so far.
   */
  predicate Tracks(sections: map<Section, string>, current: Label, kinds: seq<LineKind>)
  {
    && current == LastHeader(kinds)
    && forall k :: k in sections && sections[k] == Terminated(Body(kinds, k))
  }

  /** Reading a line as the loop body does keeps the state in step with the lines read. */
  lemma TracksStep(sections: map<Section, string>, current: Label, kinds: seq<LineKind>, kind: LineKind,
                   sections': map<Section, string>, current': Label)
    requires Tracks(sections, current, kinds)
    requires kind.Header? ==> current' == kind.heading
    requires !kind.Header? ==> current' == current
    requires kind.Content? ==> sections' == sections[Route(current) := sections[Route(current)] + kind.text + "\n"]
    requires !kind.Content? ==> sections' == sections
    ensures Tracks(sections', current', kinds + [kind])
  {
    BodyStep(kinds, kind, Other);
    forall k ensures k in sections' && sections'[k] == Terminated(Body(kinds + [kind], k)) {
      SectionStep(kinds, kind, k);
    }
  }

  /** Before any line is read, every key is empty and the label is `other`. */
  lemma TracksStart(m: map<Section, string>)
    requires m == map[Contact := "", Summary := "", Experience := "", Education := "", Skills := "", Other := ""]
    ensures Tracks(m, Keyed(Other), [])
  {
    forall k ensures k in m && m[k] == Terminated(Body([], k)) {
      match k
      case Contact => case Summary => case Experience => case Education => case Skills => case Other =>
    }
  }

  /** A dictionary with every key, holding each key's section, is the dictionary of `kinds`. */
  lemma SectionsAfterAt(m: map<Section, string>, kinds: seq<LineKind>)
    requires forall k :: k in m && m[k] == Terminated(Body(kinds, k))
    ensures m == SectionsAfter(kinds)
  {
    forall k ensures k in AllSections {
      InAllSections(k);
    }
  }

  // ---------------------------------------------------------------------------
  // The segmenter

  /** The inner loop: try each pattern in order, stop at the first that matches. */
  method FindHeader(line: string) returns (found: Option<Label>)
    ensures found == HeaderLabel(line)
  {
    var lineLower := Lower(line);
    found := None;
    var k := 0;
    while k < |Patterns|
      invariant 0 <= k <= |Patterns|
      invariant HeaderLabel(line) == if |line| < MaxHeaderLength then FirstMatch(lineLower, Patterns[k..]) else None
    {
      var (heading, pattern) := Patterns[k];
      if ContainsAny(lineLower, pattern) && |line| < MaxHeaderLength {
        found := Some(heading);
        break;
      }
      assert Patterns[k..][1..] == Patterns[k + 1..];
      k := k + 1;
    }
  }

  /**
   * The body of the segmenter's loop, for one raw line: a blank line is
   * skipped, a header switches the label, and any other line is appended,
   * stripped and newline-terminated, to the key the label routes to.
   */
  method SegmentLine(sections: map<Section, string>, current: Label, raw: string)
      returns (sections': map<Section, string>, current': Label)
    requires forall k :: k in sections
    ensures Classify(raw).Header? ==> current' == Classify(raw).heading
    ensures !Classify(raw).Header? ==> current' == current
    ensures Classify(raw).Content?
            ==> sections' == sections[Route(current) := sections[Route(current)] + Classify(raw).text + "\n"]
    ensures !Classify(raw).Content? ==> sections' == sections
  {
    sections', current' := sections, current;
    var line := Strip(raw);
    if line == "" {
      return;
    }
    var found := FindHeader(line);
    if found.Some? {
      assert Classify(raw) == Header(found.value);
      current' := found.value;
    } else {
      assert Classify(raw) == Content(line);
      // a label of its own names its key; the others write into `other`
      var key := if current.Keyed? then current.section else Other;
      assert key == Route(current);
      sections' := sections[key := sections[key] + line + "\n"];
    }
  }

  /** `parse_resume_sections(text)` */
  method ParseResumeSections(text: string) returns (sections: map<Section, string>)
    ensures sections.Keys == AllSections
    ensures sections == SectionsOf(text)
  {
    sections := map[Contact := "", Summary := "", Experience := "", Education := "", Skills := "", Other := ""];
    var lines := Split(text, '\n');
    ghost var kinds := Classes(lines);
    var current := Keyed(Other);
    assert kinds[..0] == [];
    TracksStart(sections);
    for i := 0 to |lines|
      invariant Tracks(sections, current, kinds[..i])
    {
      var sections', current' := SegmentLine(sections, current, lines[i]);
      TracksStep(sections, current, kinds[..i], kinds[i], sections', current');
      PrefixStep(kinds, i);
      sections, current := sections', current';
    }
    PrefixFull(kinds);
    SectionsAfterAt(sections, kinds);
  }
}
