/**
 * `generate_improved_resume`: a list of output lines built by appending,
 * block by block, from the parsed sections, the contact details and the
 * two skill lists, and joined with newlines at the end.
 */
module Composer {
  import opened Text
  import opened Lists
  import opened Sections
  import opened Contact

  // ---------------------------------------------------------------------------
  // Fixed text

  const RuleWidth: nat := 60
  const SummaryRuleWidth: nat := 25
  const SkillsRuleWidth: nat := 20
  const ExperienceRuleWidth: nat := 28
  const EducationRuleWidth: nat := 12
  const SuggestionsRuleWidth: nat := 28

  /** How many missing skills the summary, the skills block and the suggestions name. */
  const SummaryLearning: nat := 3
  const SummaryFocus: nat := 3
  const SummaryNew: nat := 2
  const LearningCount: nat := 3
  const SuggestedCount: nat := 5

  const NamePlaceholder: string := "YOUR NAME"
  const Bullet: string := "•"
  const LearningSuffix: string := " (Learning)"

  const SummaryTitle: string := "\U{1F3AF} PROFESSIONAL SUMMARY"
  const SkillsTitle: string := "\U{1F6E0}\U{FE0F} TECHNICAL SKILLS"
  const ExperienceTitle: string := "\U{1F4BC} PROFESSIONAL EXPERIENCE"
  const EducationTitle: string := "\U{1F393} EDUCATION"
  const AdditionalMark: string := "\U{1F4CB} "
  const SuggestionsTitle: string := "\U{1F4A1} OPTIMIZATION SUGGESTIONS"
  const SuggestionsIntro: string := "Based on the job description analysis:"

  // The next three are written in pieces so that the verifier can look up
  // single characters of them.
  const TechPrefix: string := Bullet + " Programming " + "& Technologies: "
  const OtherPrefix: string := Bullet + " Additional " + "Skills: "
  const SkillsPlaceholder: string := Bullet + " [Add your " + "technical skills here]"
  const HighlightPrefix: string := Bullet + " Consider " + "highlighting experience with: "
  const EmphasizePrefix: string := Bullet + " Emphasize " + "your expertise in: "

  /** The three tips every improved resume ends with. */
  const Tips: seq<string> := [
    Bullet + " Quantify " + "achievements with specific metrics and results",
    Bullet + " Use " + "action verbs and job-specific keywords",
    Bullet + " Tailor " + "your summary to match the job requirements"
  ]

  /** A skill containing one of these (lower-cased) is a programming skill. */
  const TechHints: seq<string> := ["python", "java", "javascript", "react", "node", "sql", "html", "css", "git"]

  /** An experience line containing one of these (lower-cased) names an employer. */
  const CompanyWords: seq<string> := ["company", "inc", "corp", "llc"]

  /** An experience line of at most this many words is a company or title line. */
  const MaxHeadingWords: nat := 6

  /** The keys that have a block of their own; the others are printed as additional sections. */
  const OwnBlocks: seq<string> := ["contact", "summary", "experience", "education", "skills"]

  // ---------------------------------------------------------------------------
  // The blocks, as values

  /** `contact_info['name'].upper() or 'YOUR NAME'`, indented by two spaces. */
  function NameLine(name: string): string
  {
    "  " + (if Upper(name) != "" then Upper(name) else NamePlaceholder)
  }

  /** The labelled contact details that are present, in the source's order. */
  function ContactItems(info: ContactInfo): seq<string>
  {
    (if info.email != "" then ["\U{1F4E7} " + info.email] else [])
    + (if info.phone != "" then ["\U{1F4F1} " + info.phone] else [])
    + (if info.linkedin != "" then ["\U{1F4BC} " + info.linkedin] else [])
    + (if info.github != "" then ["\U{1F4BB} " + info.github] else [])
  }

  function HeaderLines(info: ContactInfo): seq<string>
  {
    var items := ContactItems(info);
    [Repeat('=', RuleWidth), NameLine(info.name), Repeat('=', RuleWidth)]
    + (if items != [] then [Join(items, " | ")] else [])
    + [""]
  }

  /** The summary paragraph: the resume's own, extended, or a generated one. */
  function SummaryText(summary: string, missing: seq<string>, matching: seq<string>): string
  {
    if Strip(summary) != "" then
      if missing != [] then Strip(summary) + LearningGoal(missing) else Strip(summary)
    else
      Expertise(matching) + Outlook(missing)
  }

  // The fixed parts of the summary sentences, in pieces for the same reason.
  const GoalLead: string := " Seeking to leverage " + "expertise and develop " + "skills in "
  const ExpertiseLead: string := "Results-driven professional " + "with expertise in "
  const OutlookLead: string := "Passionate about delivering " + "high-quality solutions and " + "continuously learning " + "new technologies including "
  const FocusFallback: string := "various technologies"
  const NewFallback: string := "emerging tools"

  /** The sentence added to the resume's own summary when skills are missing. */
  function LearningGoal(missing: seq<string>): string
  {
    GoalLead + Join(Take(missing, SummaryLearning), ", ") + "."
  }

  /** The two sentences of a generated summary. */
  function Expertise(matching: seq<string>): string
  {
    ExpertiseLead + (if matching != [] then Join(Take(matching, SummaryFocus), ", ") else FocusFallback) + ". "
  }

  function Outlook(missing: seq<string>): string
  {
    OutlookLead + (if missing != [] then Join(Take(missing, SummaryNew), ", ") else NewFallback) + "."
  }

  function SummaryLines(summary: string, missing: seq<string>, matching: seq<string>): seq<string>
  {
    [SummaryTitle, Repeat('-', SummaryRuleWidth), SummaryText(summary, missing, matching), ""]
  }

  /** `[f"{skill} (Learning)" for skill in skills]` */
  function Learning(skills: seq<string>): seq<string>
  {
    seq(|skills|, i requires 0 <= i < |skills| => skills[i] + LearningSuffix)
  }

  /** The matching skills followed by the first three missing ones, marked as being learnt. */
  function AllSkills(missing: seq<string>, matching: seq<string>): seq<string>
  {
    matching + Learning(Take(missing, LearningCount))
  }

  predicate IsTech(skill: string)
  {
    ContainsAny(Lower(skill), TechHints)
  }

  /** `[s for s in skills if any(tech in s.lower() for tech in ...)]` */
  function TechSkills(skills: seq<string>): seq<string>
  {
    if skills == [] then []
    else
      var last := skills[|skills| - 1];
      TechSkills(skills[..|skills| - 1]) + (if IsTech(last) then [last] else [])
  }

  /** The skills that are not programming skills: the reference for `OtherSkills`. */
  function NonTechSkills(skills: seq<string>): seq<string>
  {
    if skills == [] then []
    else
      var last := skills[|skills| - 1];
      NonTechSkills(skills[..|skills| - 1]) + (if IsTech(last) then [] else [last])
  }

  /** `[s for s in skills if s not in tech]` */
  function OtherSkills(skills: seq<string>, tech: seq<string>): seq<string>
  {
    if skills == [] then []
    else
      var last := skills[|skills| - 1];
      OtherSkills(skills[..|skills| - 1], tech) + (if last !in tech then [last] else [])
  }

  /** The listing lines of the skills block, or the placeholder when there is no skill. */
  function SkillsListing(skills: seq<string>): seq<string>
  {
    if skills == [] then [SkillsPlaceholder]
    else
      var tech := TechSkills(skills);
      var other := OtherSkills(skills, tech);
      (if tech != [] then [TechPrefix + Join(tech, ", ")] else [])
      + (if other != [] then [OtherPrefix + Join(other, ", ")] else [])
  }

  function SkillsLines(missing: seq<string>, matching: seq<string>): seq<string>
  {
    [SkillsTitle, Repeat('-', SkillsRuleWidth)] + SkillsListing(AllSkills(missing, matching)) + [""]
  }

  /** The output line for a stripped, non-empty experience line. */
  function ExperienceLine(line: string): string
  {
    if !StartsWith(line, Bullet) && !StartsWith(line, "-") then
      if ContainsAny(Lower(line), CompanyWords) || WordCount(line) <= MaxHeadingWords then
        "\n" + line
      else
        Bullet + " " + line
    else
      line
  }

  /** The output lines for the lines of the experience section; blank ones are dropped. */
  function ExperienceBody(lines: seq<string>): seq<string>
  {
    if lines == [] then []
    else
      var line := Strip(lines[|lines| - 1]);
      ExperienceBody(lines[..|lines| - 1]) + (if line != "" then [ExperienceLine(line)] else [])
  }

  function ExperienceLines(experience: string): seq<string>
  {
    if Strip(experience) != "" then
      [ExperienceTitle, Repeat('-', ExperienceRuleWidth)] + ExperienceBody(Split(Strip(experience), '\n')) + [""]
    else []
  }

  function EducationLines(education: string): seq<string>
  {
    if Strip(education) != "" then
      [EducationTitle, Repeat('-', EducationRuleWidth), Strip(education), ""]
    else []
  }

  /** The block a section without a block of its own gets when it has content. */
  function AdditionalBlock(name: string, content: string): seq<string>
  {
    if name !in OwnBlocks && Strip(content) != "" then
      [AdditionalMark + Upper(name), Repeat('-', |name| + 4), Strip(content), ""]
    else []
  }

  /** The blocks of `keys`, in that order. */
  function AdditionalLines(sections: map<Section, string>, keys: seq<Section>): seq<string>
    requires Complete(sections)
  {
    if keys == [] then []
    else
      var k := keys[|keys| - 1];
      AdditionalLines(sections, keys[..|keys| - 1]) + AdditionalBlock(SectionName(k), sections[k])
  }

  function SuggestionLines(missing: seq<string>, matching: seq<string>): seq<string>
  {
    [SuggestionsTitle, Repeat('-', SuggestionsRuleWidth), SuggestionsIntro]
    + (if missing != [] then [HighlightPrefix + Join(Take(missing, SuggestedCount), ", ")] else [])
    + (if matching != [] then [EmphasizePrefix + Join(Take(matching, SuggestedCount), ", ")] else [])
    + Tips
  }

  /** Every line of the improved resume, in order. */
  function ImprovedLines(sections: map<Section, string>, info: ContactInfo, missing: seq<string>, matching: seq<string>): seq<string>
    requires Complete(sections)
  {
    HeaderLines(info) + MiddleLines(sections, missing, matching) + SuggestionLines(missing, matching)
  }

  /** The blocks between the header and the suggestions. */
  function MiddleLines(sections: map<Section, string>, missing: seq<string>, matching: seq<string>): seq<string>
    requires Complete(sections)
  {
    SummaryLines(sections[Summary], missing, matching)
    + SkillsLines(missing, matching)
    + ExperienceLines(sections[Experience])
    + EducationLines(sections[Education])
    + AdditionalLines(sections, Keys)
  }

  /** What `generate_improved_resume` returns. */
  function ImprovedResume(resumeText: string, missing: seq<string>, matching: seq<string>): string
  {
    Join(ImprovedLines(SectionsOf(resumeText), ContactOf(resumeText), missing, matching), "\n")
  }

  // ---------------------------------------------------------------------------
  // The composer, appending line by line

  /**
   * `generate_improved_resume(resume_text, job_desc, missing_skills,
   * matching_skills)`. The job description is not consulted.
   */
  method GenerateImprovedResume(resumeText: string, jobDesc: string, missing: seq<string>, matching: seq<string>)
    returns (resume: string)
    ensures resume == ImprovedResume(resumeText, missing, matching)
  {
    var sections := ParseResumeSections(resumeText);
    var info := ExtractContactInfo(resumeText);
    var lines := ComposeHeader(info);
    ghost var header := lines;
    lines := ComposeSummary(lines, sections[Summary], missing, matching);
    ghost var middle := SummaryLines(sections[Summary], missing, matching);
    lines := ComposeSkills(lines, missing, matching);
    AppendAssoc(header, middle, SkillsLines(missing, matching));
    middle := middle + SkillsLines(missing, matching);
    lines := ComposeExperience(lines, sections[Experience]);
    AppendAssoc(header, middle, ExperienceLines(sections[Experience]));
    middle := middle + ExperienceLines(sections[Experience]);
    lines := ComposeEducation(lines, sections[Education]);
    AppendAssoc(header, middle, EducationLines(sections[Education]));
    middle := middle + EducationLines(sections[Education]);
    lines := ComposeAdditional(lines, sections);
    AppendAssoc(header, middle, AdditionalLines(sections, Keys));
    middle := middle + AdditionalLines(sections, Keys);
    lines := ComposeSuggestions(lines, missing, matching);
    resume := Join(lines, "\n");
  }

  method ComposeHeader(info: ContactInfo) returns (lines: seq<string>)
    ensures lines == HeaderLines(info)
  {
    lines := [Repeat('=', RuleWidth)];
    var name := Upper(info.name);
    lines := lines + ["  " + (if name != "" then name else NamePlaceholder)];
    lines := lines + [Repeat('=', RuleWidth)];
    assert lines == [Repeat('=', RuleWidth), NameLine(info.name), Repeat('=', RuleWidth)];
    var contactLine: seq<string> := [];
    if info.email != "" {
      contactLine := contactLine + ["\U{1F4E7} " + info.email];
    }
    if info.phone != "" {
      contactLine := contactLine + ["\U{1F4F1} " + info.phone];
    }
    if info.linkedin != "" {
      contactLine := contactLine + ["\U{1F4BC} " + info.linkedin];
    }
    if info.github != "" {
      contactLine := contactLine + ["\U{1F4BB} " + info.github];
    }
    assert contactLine == ContactItems(info);
    if contactLine != [] {
      lines := lines + [Join(contactLine, " | ")];
    }
    lines := lines + [""];
  }

  method ComposeSummary(lines: seq<string>, summarySection: string, missing: seq<string>, matching: seq<string>)
    returns (lines': seq<string>)
    ensures lines' == lines + SummaryLines(summarySection, missing, matching)
  {
    var summary := WriteSummary(summarySection, missing, matching);
    lines' := lines + [SummaryTitle, Repeat('-', SummaryRuleWidth), summary, ""];
  }

  /** The summary paragraph: the own one, stripped and extended, or a generated one. */
  method WriteSummary(summarySection: string, missing: seq<string>, matching: seq<string>) returns (summary: string)
    ensures summary == SummaryText(summarySection, missing, matching)
  {
    if Strip(summarySection) != "" {
      summary := Strip(summarySection);
      if missing != [] {
        summary := summary + LearningGoal(missing);
      }
    } else {
      summary := Expertise(matching);
      summary := summary + Outlook(missing);
    }
  }

  method ComposeSkills(lines: seq<string>, missing: seq<string>, matching: seq<string>) returns (lines': seq<string>)
    ensures lines' == lines + SkillsLines(missing, matching)
  {
    var heading := [SkillsTitle, Repeat('-', SkillsRuleWidth)];
    var allSkills := CollectSkills(missing, matching);
    var listing := GroupSkills(allSkills);
    lines' := lines + (heading + listing + [""]);
  }

  /** `all_skills`: the matching skills, then the first missing ones marked as being learnt. */
  method CollectSkills(missing: seq<string>, matching: seq<string>) returns (allSkills: seq<string>)
    ensures allSkills == AllSkills(missing, matching)
  {
    allSkills := matching;
    if missing != [] {
      allSkills := allSkills + Learning(Take(missing, LearningCount));
    } else {
      assert Learning(Take(missing, LearningCount)) == [];
    }
  }

  /** The listing lines: programming skills, then the others, or the placeholder. */
  method GroupSkills(allSkills: seq<string>) returns (listing: seq<string>)
    ensures listing == SkillsListing(allSkills)
  {
    listing := [];
    if allSkills != [] {
      var tech := TechSkills(allSkills);
      var other := OtherSkills(allSkills, tech);
      if tech != [] {
        listing := listing + [TechPrefix + Join(tech, ", ")];
      }
      if other != [] {
        listing := listing + [OtherPrefix + Join(other, ", ")];
      }
    } else {
      listing := [SkillsPlaceholder];
    }
  }

  method ComposeExperience(lines: seq<string>, experience: string) returns (lines': seq<string>)
    ensures lines' == lines + ExperienceLines(experience)
  {
    lines' := lines;
    if Strip(experience) != "" {
      var heading := [ExperienceTitle, Repeat('-', ExperienceRuleWidth)];
      var experienceLines := Split(Strip(experience), '\n');
      var body := AppendExperienceLines(heading, experienceLines);
      lines' := lines' + (body + [""]);
    }
  }

  /** The loop over the lines of the experience section. */
  method AppendExperienceLines(lines: seq<string>, experienceLines: seq<string>) returns (lines': seq<string>)
    ensures lines' == lines + ExperienceBody(experienceLines)
  {
    lines' := lines;
    assert experienceLines[..0] == [];
    for i := 0 to |experienceLines|
      invariant lines' == lines + ExperienceBody(experienceLines[..i])
    {
      ExperienceBodyStep(experienceLines, i);
      var formatted := FormatRawExperienceLine(experienceLines[i]);
      AppendAssoc(lines, ExperienceBody(experienceLines[..i]), formatted);
      lines' := lines' + formatted;
    }
    PrefixFull(experienceLines);
  }

  /** The loop body: a raw line, stripped, gives one formatted line unless it is blank. */
  method FormatRawExperienceLine(raw: string) returns (formatted: seq<string>)
    ensures formatted == if Strip(raw) != "" then [ExperienceLine(Strip(raw))] else []
  {
    formatted := [];
    var line := Strip(raw);
    if line != "" {
      var f := FormatExperienceLine(line);
      formatted := [f];
    }
  }

  lemma ExperienceBodyStep(xs: seq<string>, i: nat)
    requires i < |xs|
    ensures ExperienceBody(xs[..i + 1])
         == ExperienceBody(xs[..i]) + (if Strip(xs[i]) != "" then [ExperienceLine(Strip(xs[i]))] else [])
  {
    assert xs[..i + 1][..i] == xs[..i];
  }

  /** One non-empty experience line: kept if already a bullet, else marked as a heading or a bullet. */
  method FormatExperienceLine(line: string) returns (formatted: string)
    ensures formatted == ExperienceLine(line)
  {
    if !StartsWith(line, Bullet) && !StartsWith(line, "-") {
      if ContainsAny(Lower(line), CompanyWords) || WordCount(line) <= MaxHeadingWords {
        formatted := "\n" + line;
      } else {
        formatted := Bullet + " " + line;
      }
    } else {
      formatted := line;
    }
  }

  method ComposeEducation(lines: seq<string>, education: string) returns (lines': seq<string>)
    ensures lines' == lines + EducationLines(education)
  {
    lines' := lines;
    if Strip(education) != "" {
      lines' := lines' + [EducationTitle, Repeat('-', EducationRuleWidth), Strip(education), ""];
    }
  }

  /** The loop over the dictionary's items, in its insertion order. */
  method ComposeAdditional(lines: seq<string>, sections: map<Section, string>) returns (lines': seq<string>)
    requires Complete(sections)
    ensures lines' == lines + AdditionalLines(sections, Keys)
  {
    lines' := AppendAdditional(lines, sections, Keys);
  }

  /** The loop over the dictionary's items, in the order of `keys`. */
  method AppendAdditional(lines: seq<string>, sections: map<Section, string>, keys: seq<Section>) returns (lines': seq<string>)
    requires Complete(sections)
    ensures lines' == lines + AdditionalLines(sections, keys)
  {
    lines' := lines;
    assert keys[..0] == [];
    for i := 0 to |keys|
      invariant lines' == lines + AdditionalLines(sections, keys[..i])
    {
      AdditionalStep(sections, keys, i);
      var block := ComposeAdditionalBlock(SectionName(keys[i]), sections[keys[i]]);
      AppendAssoc(lines, AdditionalLines(sections, keys[..i]), block);
      lines' := lines' + block;
    }
    PrefixFull(keys);
  }

  lemma AdditionalStep(sections: map<Section, string>, keys: seq<Section>, i: nat)
    requires Complete(sections) && i < |keys|
    ensures AdditionalLines(sections, keys[..i + 1])
         == AdditionalLines(sections, keys[..i]) + AdditionalBlock(SectionName(keys[i]), sections[keys[i]])
  {
    assert keys[..i + 1][..i] == keys[..i];
  }

  /** The body of that loop for one item. */
  method ComposeAdditionalBlock(name: string, content: string) returns (block: seq<string>)
    ensures block == AdditionalBlock(name, content)
  {
    block := [];
    if name !in OwnBlocks && Strip(content) != "" {
      block := [AdditionalMark + Upper(name), Repeat('-', |name| + 4), Strip(content), ""];
    }
  }

  method ComposeSuggestions(lines: seq<string>, missing: seq<string>, matching: seq<string>) returns (lines': seq<string>)
    ensures lines' == lines + SuggestionLines(missing, matching)
  {
    lines' := lines + [SuggestionsTitle, Repeat('-', SuggestionsRuleWidth), SuggestionsIntro];
    if missing != [] {
      lines' := lines' + [HighlightPrefix + Join(Take(missing, SuggestedCount), ", ")];
    }
    if matching != [] {
      lines' := lines' + [EmphasizePrefix + Join(Take(matching, SuggestedCount), ", ")];
    }
    lines' := lines' + Tips;
  }

  // ---------------------------------------------------------------------------
  // What the composed resume looks like

  /** The first three lines are the two rules around the name line. */
  lemma LinesStart(sections: map<Section, string>, info: ContactInfo, missing: seq<string>, matching: seq<string>)
    requires Complete(sections)
    ensures var lines := ImprovedLines(sections, info, missing, matching);
      && |lines| > 3
      && lines[0] == Repeat('=', RuleWidth) && lines[1] == NameLine(info.name) && lines[2] == Repeat('=', RuleWidth)
  {
    HeaderStart(info);
    Front3(HeaderLines(info), MiddleLines(sections, missing, matching), SuggestionLines(missing, matching));
  }

  lemma HeaderStart(info: ContactInfo)
    ensures var header := HeaderLines(info);
      |header| > 3 && header[0] == Repeat('=', RuleWidth) && header[1] == NameLine(info.name) && header[2] == Repeat('=', RuleWidth)
  {
  }

  /** The last three lines are the tips. */
  lemma LinesEnd(sections: map<Section, string>, info: ContactInfo, missing: seq<string>, matching: seq<string>)
    requires Complete(sections)
    ensures var lines := ImprovedLines(sections, info, missing, matching); var n := |lines|;
      && n > 3
      && lines[n - 3] == Tips[0] && lines[n - 2] == Tips[1] && lines[n - 1] == Tips[2]
  {
  }

  /**
   * The improved resume opens with a rule of 60 `=`, the indented upper-cased
   * name (or `YOUR NAME` when no name was found) and another rule.
   */
  lemma FrameStart(resumeText: string, missing: seq<string>, matching: seq<string>)
    ensures var rule, name := Repeat('=', RuleWidth), ContactOf(resumeText).name;
      StartsWith(ImprovedResume(resumeText, missing, matching),
        rule + "\n" + ("  " + (if name == "" then NamePlaceholder else Upper(name))) + "\n" + rule + "\n")
  {
    var sections, info := SectionsOf(resumeText), ContactOf(resumeText);
    LinesStart(sections, info, missing, matching);
    JoinStartsWith3(ImprovedLines(sections, info, missing, matching), "\n");
    NameLineShape(info.name);
  }

  /** The placeholder stands in exactly for an empty name; any other name is upper-cased. */
  lemma NameLineShape(name: string)
    ensures NameLine(name) == "  " + (if name == "" then NamePlaceholder else Upper(name))
  {
    assert |Upper(name)| == |name|;
  }

  /** The improved resume closes with the three fixed tips, one per line. */
  lemma FrameEnd(resumeText: string, missing: seq<string>, matching: seq<string>)
    ensures EndsWith(ImprovedResume(resumeText, missing, matching), "\n" + Tips[0] + "\n" + Tips[1] + "\n" + Tips[2])
  {
    var sections, info := SectionsOf(resumeText), ContactOf(resumeText);
    LinesEnd(sections, info, missing, matching);
    JoinEndsWith3(ImprovedLines(sections, info, missing, matching), "\n");
  }

  // ---------------------------------------------------------------------------
  // The summary and the suggestions

  /**
   * A resume with a summary of its own keeps it, stripped, at the front, and
   * only adds to it when skills are missing.
   */
  lemma SummaryKeepsOwn(summary: string, missing: seq<string>, matching: seq<string>)
    requires Strip(summary) != ""
    ensures StartsWith(SummaryText(summary, missing, matching), Strip(summary))
    ensures missing == [] ==> SummaryText(summary, missing, matching) == Strip(summary)
  {
    if missing != [] {
      assert (Strip(summary) + LearningGoal(missing))[..|Strip(summary)|] == Strip(summary);
    }
  }

  /**
   * An own summary is extended by a sentence naming exactly the first three
   * missing skills.
   */
  lemma SummaryExtendedNames(summary: string, missing: seq<string>, matching: seq<string>)
    requires Strip(summary) != "" && missing != []
    ensures SummaryText(summary, missing, matching) == Strip(summary) + (GoalLead + Join(Take(missing, 3), ", ") + ".")
    ensures 1 <= |Take(missing, 3)| <= 3 && Take(missing, 3) == missing[..|Take(missing, 3)|]
  {
  }

  /**
   * Without a summary of its own, the resume gets a generated one: its first
   * sentence names the first three matching skills (or "various
   * technologies"), its second the first two missing ones (or "emerging
   * tools").
   */
  lemma SummaryGenerated(summary: string, missing: seq<string>, matching: seq<string>)
    requires Strip(summary) == ""
    ensures SummaryText(summary, missing, matching) ==
      (ExpertiseLead + (if matching == [] then FocusFallback else Join(Take(matching, 3), ", ")) + ". ")
      + (OutlookLead + (if missing == [] then NewFallback else Join(Take(missing, 2), ", ")) + ".")
  {
  }

  /**
   * The summary depends on the skill lists only through the first three
   * missing and the first three matching skills.
   */
  lemma SummaryUsesFirstSkills(summary: string, missing: seq<string>, matching: seq<string>,
                                missing': seq<string>, matching': seq<string>)
    requires Take(missing, 3) == Take(missing', 3) && Take(matching, 3) == Take(matching', 3)
    ensures SummaryText(summary, missing, matching) == SummaryText(summary, missing', matching')
  {
    assert missing == [] <==> missing' == [] by {
      assert |Take(missing, 3)| == 0 <==> missing == [];
      assert |Take(missing', 3)| == 0 <==> missing' == [];
    }
    assert matching == [] <==> matching' == [] by {
      assert |Take(matching, 3)| == 0 <==> matching == [];
      assert |Take(matching', 3)| == 0 <==> matching' == [];
    }
    TakeOfTake(missing, 3, 2);
    TakeOfTake(missing', 3, 2);
  }

  /**
   * The suggestions name missing skills exactly when there are some, and
   * then only the first five; likewise for matching skills.
   */
  lemma SuggestionsNameFirstFive(missing: seq<string>, matching: seq<string>)
    ensures (exists line :: line in SuggestionLines(missing, matching) && StartsWith(line, HighlightPrefix))
        <==> missing != []
    ensures forall line :: line in SuggestionLines(missing, matching) && StartsWith(line, HighlightPrefix) ==>
      line == HighlightPrefix + Join(Take(missing, SuggestedCount), ", ")
    ensures (exists line :: line in SuggestionLines(missing, matching) && StartsWith(line, EmphasizePrefix))
        <==> matching != []
    ensures forall line :: line in SuggestionLines(missing, matching) && StartsWith(line, EmphasizePrefix) ==>
      line == EmphasizePrefix + Join(Take(matching, SuggestedCount), ", ")
    ensures |Take(missing, SuggestedCount)| <= SuggestedCount && |Take(matching, SuggestedCount)| <= SuggestedCount
  {
    var h, e := HighlightPrefix + Join(Take(missing, SuggestedCount), ", "), EmphasizePrefix + Join(Take(matching, SuggestedCount), ", ");
    var block := SuggestionLines(missing, matching);
    assert h[..|HighlightPrefix|] == HighlightPrefix;
    assert e[..|EmphasizePrefix|] == EmphasizePrefix;
    assert HighlightPrefix[2] == 'C' && EmphasizePrefix[2] == 'E';
    assert SuggestionsTitle[0] != Bullet[0] && Repeat('-', SuggestionsRuleWidth)[0] != Bullet[0];
    assert SuggestionsIntro[0] != Bullet[0];
    assert Tips[0][2] == 'Q' && Tips[1][2] == 'U' && Tips[2][2] == 'T';
    forall line | line in block && StartsWith(line, HighlightPrefix)
      ensures missing != [] && line == h
    {
      assert line[0] == HighlightPrefix[0] && line[2] == HighlightPrefix[2];
    }
    forall line | line in block && StartsWith(line, EmphasizePrefix)
      ensures matching != [] && line == e
    {
      assert line[0] == EmphasizePrefix[0] && line[2] == EmphasizePrefix[2];
    }
    if missing != [] {
      assert block[3] == h && StartsWith(h, HighlightPrefix);
    }
    if matching != [] {
      assert block[if missing != [] then 4 else 3] == e && StartsWith(e, EmphasizePrefix);
    }
  }

  // ---------------------------------------------------------------------------
  // The skills block

  lemma {:induction false} TechSkillsIff(skills: seq<string>, x: string)
    ensures x in TechSkills(skills) <==> x in skills && IsTech(x)
  {
    if skills != [] {
      var prefix := skills[..|skills| - 1];
      TechSkillsIff(prefix, x);
      assert skills == prefix + [skills[|skills| - 1]];
    }
  }

  lemma {:induction false} OtherSkillsFilter(skills: seq<string>, tech: seq<string>)
    requires forall x :: x in skills ==> (x in tech <==> IsTech(x))
    ensures OtherSkills(skills, tech) == NonTechSkills(skills)
  {
    if skills != [] {
      OtherSkillsFilter(skills[..|skills| - 1], tech);
    }
  }

  /**
   * `s not in tech_skills` picks exactly the skills that are not programming
   * skills, so the two listings split the skills between them.
   */
  lemma OtherIsComplement(skills: seq<string>)
    ensures OtherSkills(skills, TechSkills(skills)) == NonTechSkills(skills)
  {
    forall x | x in skills
      ensures x in TechSkills(skills) <==> IsTech(x)
    {
      TechSkillsIff(skills, x);
    }
    OtherSkillsFilter(skills, TechSkills(skills));
  }

  lemma {:induction false} FilterPartition(skills: seq<string>)
    ensures multiset(TechSkills(skills)) + multiset(NonTechSkills(skills)) == multiset(skills)
  {
    if skills != [] {
      var prefix, last := skills[..|skills| - 1], skills[|skills| - 1];
      FilterPartition(prefix);
      assert skills == prefix + [last];
      SplitStep(prefix, last, TechSkills(prefix), NonTechSkills(prefix), TechSkills(skills), NonTechSkills(skills));
    }
  }

  lemma {:induction false} NonTechSkillsIff(skills: seq<string>, x: string)
    ensures x in NonTechSkills(skills) <==> x in skills && !IsTech(x)
  {
    if skills != [] {
      var prefix := skills[..|skills| - 1];
      NonTechSkillsIff(prefix, x);
      assert skills == prefix + [skills[|skills| - 1]];
    }
  }

  /**
   * Every skill of the block is listed exactly once over the two listings:
   * the programming ones under the first, all the others under the second.
   */
  lemma SkillsPartition(skills: seq<string>, x: string)
    ensures multiset(TechSkills(skills)) + multiset(OtherSkills(skills, TechSkills(skills))) == multiset(skills)
    ensures x in TechSkills(skills) <==> x in skills && IsTech(x)
    ensures x in OtherSkills(skills, TechSkills(skills)) <==> x in skills && !IsTech(x)
  {
    OtherIsComplement(skills);
    FilterPartition(skills);
    TechSkillsIff(skills, x);
    NonTechSkillsIff(skills, x);
  }

  /** The block lists the matching skills and the first three missing ones, marked as being learnt. */
  lemma AllSkillsContents(missing: seq<string>, matching: seq<string>)
    ensures |AllSkills(missing, matching)| == |matching| + (if |missing| < LearningCount then |missing| else LearningCount)
    ensures AllSkills(missing, matching)[..|matching|] == matching
    ensures forall i :: 0 <= i < |AllSkills(missing, matching)| - |matching| ==>
      AllSkills(missing, matching)[|matching| + i] == missing[i] + LearningSuffix
  {
    var all := AllSkills(missing, matching);
    assert all[..|matching|] == matching;
  }

  /** The placeholder appears exactly when there is no skill at all to list. */
  lemma PlaceholderIffNoSkills(missing: seq<string>, matching: seq<string>)
    ensures SkillsPlaceholder in SkillsLines(missing, matching) <==> missing == [] && matching == []
  {
    var skills := AllSkills(missing, matching);
    AllSkillsContents(missing, matching);
    var listing := SkillsListing(skills);
    assert SkillsPlaceholder[2] == '[' && TechPrefix[2] == 'P' && OtherPrefix[2] == 'A';
    var heading := [SkillsTitle, Repeat('-', SkillsRuleWidth)];
    assert SkillsTitle[0] != SkillsPlaceholder[0];
    assert Repeat('-', SkillsRuleWidth)[0] != SkillsPlaceholder[0];
    assert SkillsLines(missing, matching) == heading + listing + [""];
  }

  // ---------------------------------------------------------------------------
  // The experience block

  /**
   * Every line of the experience block is marked, as a bullet (`•` or `-`)
   * or as a heading (a leading newline), and ends with a non-blank line of
   * the section, put there unchanged after stripping.
   */
  lemma {:induction false} ExperienceMarked(lines: seq<string>)
    ensures |ExperienceBody(lines)| <= |lines|
    ensures forall out :: out in ExperienceBody(lines) ==>
      StartsWith(out, Bullet) || StartsWith(out, "-") || StartsWith(out, "\n")
    ensures forall out :: out in ExperienceBody(lines) ==>
      exists j :: 0 <= j < |lines| && Strip(lines[j]) != "" && EndsWith(out, Strip(lines[j]))
  {
    if lines != [] {
      var prefix, n := lines[..|lines| - 1], |lines| - 1;
      ExperienceMarked(prefix);
      var line := Strip(lines[n]);
      if line != "" {
        ExperienceLineShape(line);
      }
      forall out | out in ExperienceBody(lines)
        ensures exists j :: 0 <= j < |lines| && Strip(lines[j]) != "" && EndsWith(out, Strip(lines[j]))
      {
        if out in ExperienceBody(prefix) {
          var j :| 0 <= j < |prefix| && Strip(prefix[j]) != "" && EndsWith(out, Strip(prefix[j]));
          assert prefix[j] == lines[j];
        } else {
          assert Strip(lines[n]) != "" && EndsWith(out, Strip(lines[n]));
        }
      }
    }
  }

  /** One formatted line is marked and ends with the stripped line it came from. */
  lemma ExperienceLineShape(line: string)
    ensures var out := ExperienceLine(line);
      && (StartsWith(out, Bullet) || StartsWith(out, "-") || StartsWith(out, "\n"))
      && EndsWith(out, line)
  {
    var out := ExperienceLine(line);
    if !StartsWith(line, Bullet) && !StartsWith(line, "-") {
      if ContainsAny(Lower(line), CompanyWords) || WordCount(line) <= MaxHeadingWords {
        assert out == "\n" + line;
        assert out[..1] == "\n";
      } else {
        assert out == Bullet + " " + line;
        assert out[..1] == Bullet;
      }
    }
    assert out[|out| - |line|..] == line;
  }

  /**
   * The three forms of main.py's experience formatting: a line already
   * bulleted is kept; otherwise an employer or short line becomes a heading
   * (a leading newline) and any other line gets a bullet.
   */
  lemma ExperienceLineForms(line: string)
    ensures StartsWith(line, Bullet) || StartsWith(line, "-") ==> ExperienceLine(line) == line
    ensures !StartsWith(line, Bullet) && !StartsWith(line, "-") ==>
      (ExperienceLine(line) == "\n" + line <==> ContainsAny(Lower(line), CompanyWords) || WordCount(line) <= MaxHeadingWords)
    ensures !StartsWith(line, Bullet) && !StartsWith(line, "-")
         && !ContainsAny(Lower(line), CompanyWords) && WordCount(line) > MaxHeadingWords
        ==> ExperienceLine(line) == Bullet + " " + line
  {
    assert ("\n" + line)[0] != (Bullet + " " + line)[0];
  }

  /** The stripped non-blank lines, in order. */
  function NonBlankLines(lines: seq<string>): (r: seq<string>)
    ensures forall i :: 0 <= i < |r| ==> r[i] != ""
  {
    if lines == [] then []
    else
      var line := Strip(lines[|lines| - 1]);
      NonBlankLines(lines[..|lines| - 1]) + (if line != "" then [line] else [])
  }

  /** Each non-blank line of the experience section gives exactly one output line, in order. */
  lemma {:induction false} ExperienceBodyPerLine(lines: seq<string>)
    ensures |ExperienceBody(lines)| == |NonBlankLines(lines)|
    ensures forall i :: 0 <= i < |ExperienceBody(lines)| ==>
      ExperienceBody(lines)[i] == ExperienceLine(NonBlankLines(lines)[i])
  {
    if lines != [] {
      ExperienceBodyPerLine(lines[..|lines| - 1]);
    }
  }

  /**
   * The education block appears exactly when the section has a character
   * other than whitespace, and is then its title, its rule and the stripped
   * section, closed by a blank line.
   */
  lemma EducationBlock(education: string)
    ensures EducationLines(education) != [] <==> exists k :: 0 <= k < |education| && !IsSpace(education[k])
    ensures EducationLines(education) != [] ==>
      && |EducationLines(education)| == 4
      && EducationLines(education)[0] == EducationTitle
      && EducationLines(education)[1] == Repeat('-', EducationRuleWidth)
      && EducationLines(education)[2] == Strip(education)
      && EducationLines(education)[3] == ""
  {
    StripEmptyIffBlank(education);
  }

  // ---------------------------------------------------------------------------
  // The loop over the dictionary

  /** Of the six keys only `other` lacks a block of its own, so it is the only additional section. */
  lemma {:induction false} NoAdditional(sections: map<Section, string>, keys: seq<Section>)
    requires Complete(sections)
    requires forall i :: 0 <= i < |keys| ==> SectionName(keys[i]) in OwnBlocks
    ensures AdditionalLines(sections, keys) == []
  {
    if keys != [] {
      NoAdditional(sections, keys[..|keys| - 1]);
    }
  }

  /** Of the six keys only `other` lacks a block of its own, so it is the only additional section. */
  lemma OnlyOtherIsAdditional(sections: map<Section, string>)
    requires Complete(sections)
    ensures AdditionalLines(sections, Keys)
      == if Strip(sections[Other]) != "" then
           [AdditionalMark + "OTHER", Repeat('-', 9), Strip(sections[Other]), ""]
         else []
  {
    KeysEndInOther(sections);
    OwnNames();
    NoAdditional(sections, [Contact, Summary, Experience, Education, Skills]);
    OtherBlock(sections[Other]);
  }

  /** Each key but `other` has a block of its own. */
  lemma OwnNames()
    ensures var own := [Contact, Summary, Experience, Education, Skills];
      forall i :: 0 <= i < |own| ==> SectionName(own[i]) in OwnBlocks
  {
    assert SectionName(Contact) == OwnBlocks[0];
    assert SectionName(Summary) == OwnBlocks[1];
    assert SectionName(Experience) == OwnBlocks[2];
    assert SectionName(Education) == OwnBlocks[3];
    assert SectionName(Skills) == OwnBlocks[4];
  }

  /** The dictionary's keys are the five with a block of their own, then `other`. */
  lemma KeysEndInOther(sections: map<Section, string>)
    requires Complete(sections)
    ensures AdditionalLines(sections, Keys)
      == AdditionalLines(sections, [Contact, Summary, Experience, Education, Skills]) + AdditionalBlock("other", sections[Other])
  {
    assert |Keys| == 6 && Keys[..5] == [Contact, Summary, Experience, Education, Skills] && Keys[5] == Other;
  }

  lemma OtherBlock(content: string)
    ensures AdditionalBlock("other", content)
      == if Strip(content) != "" then [AdditionalMark + "OTHER", Repeat('-', 9), Strip(content), ""] else []
  {
    assert "other" !in OwnBlocks;
    assert Upper("other") == "OTHER";
  }
}
