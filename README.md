# AI Resume Builder: a verified model of the analysis core

The AI Resume Builder backend (`main.py`) takes a PDF resume and a job
description. It extracts the resume's text and the skills named in both
texts, and compares the two skill lists. It then returns recommendations, a
skill match percentage and a rewritten plain-text resume. This project models
that core in Dafny and proves what each step promises:

- `Sections` models `parse_resume_sections`. It is a line-by-line segmenter
  over a six-key dictionary, where a short line containing a header keyword
  switches the current section. It is proved against a declarative
  reading: the label in force is that of the last header line, and each
  section is the ordered list of stripped content lines read under it. The
  lemmas show that the six sections partition the content lines (a multiset
  equality), that each keeps reading order, and that the header rule is
  "first pattern in dictionary order, line shorter than 50".
- `Regex` is a small backtracking matcher for the four contact patterns. It
  covers single characters from a class, optional groups, `*`, and `\b`. It
  tries alternatives in Python's order, and `Search` is the leftmost match of
  `re.search`. `Match` is proved sound and complete against a declarative
  `Accepts`.
- `Contact` models `extract_contact_info`. It holds the first match of each
  pattern, with the e-mail, phone, LinkedIn and GitHub patterns written out
  element by element, and the name heuristic over the first five lines. The
  `location` field is always `''`.
- `Skills` models `extract_skills`. It concatenates three signals (named
  entities, dictionary keywords, noun chunks) and removes duplicates.
- `Analysis` models the missing and matching comprehensions of
  `tailor_resume`, its three recommendation rules and the skill match
  percentage.
- `Composer` models `generate_improved_resume`. It is imperative code that
  appends lines block by block, proved equal to `Join(ImprovedLines(..), "\n")`,
  with lemmas about the header, the summary, the skills grouping, the
  experience formatting, the additional sections and the suggestions.
- `Tailor` models the body of the `/tailor-resume` handler after validation
  and text extraction. It assembles the report.
- `Text`, `Lists` and `Wrappers` hold the Python string and list primitives
  the model needs.

`generate_improved_resume`, `extract_contact_info` and the `/tailor-resume`
body build their results by successive appends and assignments, so each
is modelled by methods that do the same (`Compose*`, `ExtractContactInfo`,
`TailorResume`). Each method is proved equal to a function (`HeaderLines`,
`SummaryLines`, `ContactOf`, `ReportOf` and so on) that gives the whole
result at once. For the straight-line blocks the two read alike. The
properties are proved about the functions, so that they can be stated over
the whole improved resume, which a lemma cannot do by calling a method.

## Model

| member | source | states |
|---|---|---|
| Sections.ParseResumeSections | main.py:65-113 | the result has exactly the six keys and equals `SectionsOf(text)`: each key holds, newline-terminated, the stripped non-blank non-header lines read while its label was in force |
| Sections.SegmentLine | main.py:91-111 | one loop step: a blank line changes nothing; a header changes only the current label; a content line is appended with `'\n'` to the current key, or to `other` for projects/certifications/achievements |
| Sections.HeaderLabel | main.py:100-101 | for a line shorter than 50 characters, the label of the first pattern, in dictionary order, one of whose words occurs in the lower-cased line; no label for a longer line |
| Sections.Classify | main.py:92-104 | a stripped line is blank, a header (a label found and shorter than 50) or content |
| Sections.FindHeader | main.py:100-104 | the inner loop returns the label of the first pattern, in dictionary order, whose keywords occur in the lower-cased line, provided the line is shorter than 50 |
| Sections.SectionsOf | main.py:67-74 | the dictionary always holds every one of the six keys |
| Sections.HeaderRule | main.py:100-104 | a stripped line announces pattern k exactly when it is shorter than 50, matches pattern k, and matches no earlier pattern |
| Sections.NoHeaderRule | main.py:101 | a line is content exactly when it is 50 or longer or matches no pattern |
| Sections.HeaderNeverOther | main.py:77-86 | no header line selects `other`, which has no pattern of its own |
| Sections.NoHeaderMeansOther | main.py:89 | before any header line, content goes to `other` |
| Sections.LastHeaderIsLatest | main.py:102 | the label in force is that of the last header line read |
| Sections.BodyStep | main.py:91-111 | reading one more line extends only the section its label routes to, and only with a content line |
| Sections.BodiesPartitionKept | main.py:106-111 | the six sections together hold every content line exactly as often as it occurs, and nothing else |
| Sections.BodyInReadingOrder | main.py:109-111 | each section's lines are a subsequence of the content lines, in reading order |
| Sections.FirstMatchChoosesFirst | main.py:100-104 | with distinct labels, the first-match search returns pattern k exactly when k matches and no earlier one does |
| Sections.FirstMatchNone | main.py:100-104 | the search finds nothing exactly when no pattern matches |
| Regex.Match | main.py:128 | a reported match end lies between the start and the end of the text |
| Regex.MatchSound | main.py:128 | a span the matcher reports is accepted by the pattern |
| Regex.MatchComplete | main.py:128 | wherever the pattern accepts some span, the matcher reports a match |
| Regex.Search | main.py:128 | `re.search`: the reported start is the leftmost position with a match, and no match means none at any position |
| Regex.FirstMatchIsLeftmost | main.py:128-130 | a non-empty `group()` is a substring the pattern accepts, and no accepted span starts further left |
| Regex.FirstMatchEmpty | main.py:128-130 | for a pattern that cannot match the empty string, the result is `''` exactly when the pattern matches nowhere |
| Regex.AcceptsLiteral | main.py:140 | a span matched by an IGNORECASE literal begins with the literal, up to case |
| Regex.AcceptsPlus | main.py:139 | a span matched by `k+` is non-empty and made of characters of `k` |
| Regex.NeverEmpty | main.py:127-145 | a pattern with a single-character element at its top level matches no empty span |
| Regex.StarGreedy | main.py:139 | a trailing `k*` consumes every following character of `k`, as the greedy engine does |
| Regex.LiteralPlusGreedy | main.py:139-140 | the match of a literal followed by `k+` ends where the run of characters of `k` ends |
| Contact.ExtractContactInfo | main.py:115-159 | the result is `ContactOf(text)`: the first match of each of the four patterns and the guessed name; `location` is `''` |
| Contact.ExtractName | main.py:150-157 | the loop yields the first of the first five lines that, stripped, qualifies as a name, or `''` |
| Contact.NameIn | main.py:152-157 | the name is `''` or a line that qualifies |
| Contact.NameIsFirstQualifying | main.py:152-157 | when line k is the first to qualify, its stripped form is the name |
| Contact.NameEmptyIffNone | main.py:152-157 | the name is `''` exactly when no line qualifies |
| Contact.IsNameLine | main.py:153-155 | the name test on a stripped line: non-empty, at most four words, no digit, no `@`, no `http` in any case |
| Contact.NameFromFirstLines | main.py:151-157 | a non-empty name is the stripped form of a qualifying line among the first five, so a line further down never gives the name |
| Contact.LinkedInShape | main.py:139-142 | a found LinkedIn entry is `linkedin.com/in/`, in any case, followed by a non-empty handle of word characters and `-` |
| Contact.GitHubShape | main.py:145-148 | a found GitHub entry is `github.com/`, in any case, followed by a non-empty handle |
| Contact.EmailHasAt | main.py:127-130 | a found e-mail address has an `@` after a non-empty user part |
| Contact.PhoneEndsInFourDigits | main.py:133-136 | a found phone number ends in four digits |
| Contact.FieldEmptyIffNoMatch | main.py:126-148 | each of the e-mail, phone, LinkedIn and GitHub fields is `''` exactly when its pattern matches no span of the text |
| Contact.LinksGreedy | main.py:139-148 | a found LinkedIn or GitHub link takes the whole handle: it ends at the end of the text or before a character outside `[\w-]` |
| Skills.IsTechEntity | main.py:45-47 | an entity counts when its label is ORG, PRODUCT, LANGUAGE or PERSON and its lower-cased text mentions one of the six hints |
| Skills.IsTechChunk | main.py:58-60 | a chunk counts when it has at most three words, more than two characters, and an upper-case letter or one of the first ten terms |
| Skills.ExtractSkills | main.py:27-63 | the three loops build `Candidates`; the result is its deduplication and holds no duplicates |
| Skills.AddEntitySkills | main.py:44-48 | the entity loop appends exactly the texts of the technical entities, in order |
| Skills.AddKeywordSkills | main.py:51-54 | the keyword loop appends the title form of each term found in the lower-cased text, in dictionary order |
| Skills.AddChunkSkills | main.py:57-61 | the noun-chunk loop appends exactly the chunks that look technical, in order |
| Skills.EntitySkillsIff | main.py:44-48 | an entity text is contributed exactly when some entity has one of the four labels and mentions one of the six hints |
| Skills.KeywordSkillsIff | main.py:51-54 | a title-cased term is contributed exactly when the term occurs in the lower-cased text |
| Skills.ChunkSkillsIff | main.py:57-61 | a chunk is contributed exactly when it has at most three words, more than two characters, and an upper-case letter or one of the first ten terms |
| Skills.SkillsMembership | main.py:27-63 | a string is a skill exactly when one of the three signals produced it |
| Skills.KeywordSignal | main.py:52-54 | every dictionary term found in the text appears, title-cased, among the skills |
| Text.StripEmptyIffBlank | main.py:92-93 | a line is blank after `strip()` exactly when every character of it is whitespace |
| Text.ContainsIff | main.py:53 | Python's `t in s` holds exactly when `t` occurs in `s` at some position |
| Text.JoinSplit | main.py:88 | joining the pieces of `split('\n')` with `'\n'` gives back the text, so the split loses and adds no character |
| Lists.Dedup | main.py:63 | `list(set(..))` holds each candidate once and nothing else, and is no longer than its input |
| Analysis.Missing | main.py:328 | the job skills whose lower-case form no resume skill has, in the job's order |
| Analysis.Matching | main.py:329 | the job skills whose lower-case form some resume skill has, in the job's order |
| Analysis.CoveredIff | main.py:328-329 | a job skill is covered exactly when some resume skill has the same lower-case form |
| Analysis.MissingIff | main.py:328 | a string is missing exactly when it is a job skill that is not covered |
| Analysis.MatchingIff | main.py:329 | a string is matching exactly when it is a covered job skill |
| Analysis.Partition | main.py:328-329 | missing and matching together are the job skills, each occurrence exactly once |
| Analysis.PartitionLengths | main.py:328-329 | their lengths add up to the number of job skills |
| Analysis.OrderPreserved | main.py:328-329 | both lists keep the job's order |
| Analysis.DependsOnLowerSet | main.py:328-329 | only the set of lower-case resume skills matters |
| Analysis.Recommendations | main.py:336-343 | the two keyword tips below the double `0.7`, the advice naming the first five missing skills, and the excellent-match line from the double `0.85` on, in that order |
| Analysis.FixedAdviceDiffers | main.py:338-343 | no fixed recommendation starts like the missing-skills advice |
| Analysis.RecommendationsIff | main.py:336-343 | the two keyword tips appear exactly when the similarity is below the double `0.7`, the excellent-match line exactly when it is at least the double `0.85`, and the missing-skills advice (naming the first five) exactly when skills are missing |
| Analysis.NoMixedVerdict | main.py:337-343 | a resume is never told both that it lacks keywords and that it matches excellently |
| Analysis.MatchPercentage | main.py:362 | `len(matching) / len(job) * 100`, or 0 without job skills |
| Analysis.PercentageBounds | main.py:362 | the percentage is 0 without job skills, lies in [0, 100], and is 100 exactly when there are job skills and none is missing |
| Analysis.RatioBounds | main.py:362 | a share m/n of n > 0 items, times 100, lies in [0, 100] and is 100 exactly when m = n |
| Composer.GenerateImprovedResume | main.py:161-285 | the appended lines, joined by `'\n'`, equal `ImprovedResume`: header, summary, skills, experience, education, additional sections and suggestions, in that order |
| Composer.ComposeHeader | main.py:173-189 | two 60-character `=` rules around the upper-cased name or `YOUR NAME`, then the present contact items joined by ` \| ` if any, then a blank line |
| Composer.SummaryText | main.py:195-207 | the resume's own summary, stripped and extended when skills are missing, or the generated two-sentence summary |
| Composer.ComposeSummary | main.py:192-207 | appends the title, the rule, `SummaryText` and a blank line |
| Composer.WriteSummary | main.py:195-204 | the branches build `SummaryText`: the own summary, stripped and extended when skills are missing, or the two generated sentences |
| Composer.ComposeSkills | main.py:210-232 | appends the titled skills block of programming and other skills, or the placeholder |
| Composer.CollectSkills | main.py:213-217 | builds `all_skills`: the matching skills, then the first three missing ones marked ` (Learning)` |
| Composer.GroupSkills | main.py:219-230 | the programming-skills line and the additional-skills line, each only when non-empty, or the placeholder when there is no skill |
| Composer.ComposeExperience | main.py:235-253 | appends the experience block exactly when the section is non-blank |
| Composer.AppendExperienceLines | main.py:243-252 | the loop appends one formatted line per non-blank line, in order |
| Composer.ExperienceLine | main.py:246-252 | a bulleted or `-` line as it is, a short or employer line after a newline, any other behind a bullet |
| Composer.FormatExperienceLine | main.py:246-252 | the if-chain computes `ExperienceLine`, whose three forms Composer.ExperienceLineForms states |
| Composer.FormatRawExperienceLine | main.py:244-252 | the loop body: a blank line gives nothing; any other gives one line, the stripped line in its `ExperienceLine` form |
| Composer.ExperienceLineForms | main.py:246-252 | a line starting with a bullet or `-` is kept; otherwise it becomes a heading after a newline exactly when it names an employer word or has at most six words, and gets a bullet when it does neither |
| Composer.ExperienceBodyPerLine | main.py:242-252 | the experience loop gives exactly one output line per non-blank line, the i-th formatted from the i-th stripped non-blank line |
| Composer.ExperienceLineShape | main.py:246-252 | a formatted line starts with a bullet, `-` or a newline and ends with the stripped line |
| Composer.ComposeEducation | main.py:256-260 | appends `EducationLines`, whose shape and presence condition Composer.EducationBlock states |
| Composer.EducationBlock | main.py:256-260 | the education block appears exactly when the section has a non-whitespace character, and is then the title, a 12-character rule, the stripped section and a blank line |
| Composer.ComposeAdditional | main.py:263-268 | the loop over the keys, in dictionary order, appends the block of each non-blank key without its own block |
| Composer.AppendAdditional | main.py:263-268 | the loop appends the block of each key in turn |
| Composer.ComposeAdditionalBlock | main.py:264-268 | a titled block with a `-` rule 4 longer than the key name, or nothing |
| Composer.ComposeSuggestions | main.py:271-283 | appends the suggestions block |
| Composer.HeaderStart | main.py:173-175 | the header opens with rule, name line, rule |
| Composer.LinesStart | main.py:173-175 | the improved resume's first three lines are rule, name line and rule |
| Composer.LinesEnd | main.py:281-283 | its last three lines are the three fixed tips |
| Composer.FrameStart | main.py:173-175 | the improved text starts with the rule, the upper-cased name (or `YOUR NAME`) and the rule, each on its own line |
| Composer.NameLineShape | main.py:174 | `name.upper() or 'YOUR NAME'` is the placeholder exactly when the name is empty |
| Composer.FrameEnd | main.py:281-285 | the improved text ends with the three tips, each on its own line |
| Composer.SummaryKeepsOwn | main.py:195-200 | a non-blank own summary is kept, stripped, at the front, and is left unchanged when nothing is missing |
| Composer.SummaryExtendedNames | main.py:195-200 | with skills missing, an own summary is followed by one sentence naming exactly the first three missing skills |
| Composer.SummaryGenerated | main.py:201-204 | without an own summary, the first sentence names the first three matching skills or "various technologies", the second the first two missing ones or "emerging tools" |
| Composer.SummaryUsesFirstSkills | main.py:195-204 | the summary depends on the skill lists only through their first three entries |
| Composer.SuggestionsNameFirstFive | main.py:275-279 | a suggestion naming missing skills appears exactly when some are missing, and it names the first five; likewise for matching skills |
| Composer.TechSkills | main.py:221-222 | the skills mentioning one of the nine hints, in order |
| Composer.OtherSkills | main.py:223 | the skills not in the given list, in order |
| Composer.TechSkillsIff | main.py:221-222 | a skill is a programming skill exactly when it mentions one of the nine hints |
| Composer.OtherSkillsFilter | main.py:223 | filtering out the members of a list that holds exactly the programming skills leaves the non-programming skills |
| Composer.OtherIsComplement | main.py:221-223 | `other_skills` is exactly the non-programming skills |
| Composer.FilterPartition | main.py:221-223 | programming and non-programming skills partition the skills |
| Composer.NonTechSkillsIff | main.py:223 | a skill is "additional" exactly when it mentions none of the hints |
| Composer.SkillsPartition | main.py:221-223 | the two listings partition all skills, each occurrence once, by the tech test |
| Composer.AllSkillsContents | main.py:213-217 | `all_skills` is the matching skills followed by the first three missing ones marked ` (Learning)` |
| Composer.PlaceholderIffNoSkills | main.py:219-230 | the placeholder line appears exactly when there are neither missing nor matching skills |
| Composer.ExperienceMarked | main.py:243-252 | every output line starts with a bullet, `-` or a newline, and ends with a non-blank stripped input line; none is added |
| Composer.NoAdditional | main.py:264 | keys with a block of their own produce no additional block |
| Composer.OnlyOtherIsAdditional | main.py:263-268 | the only additional block is `📋 OTHER` with a 9-character rule, and only when `other` is non-blank |
| Composer.OtherBlock | main.py:264-268 | the `other` key gets the block `📋 OTHER`, a 9-character rule and its stripped content, exactly when that content is non-blank |
| Composer.KeysEndInOther | main.py:263 | the dictionary's order is the five keys with blocks of their own, then `other` |
| Composer.OwnNames | main.py:264 | contact, summary, experience, education and skills each have a block of their own |
| Tailor.TailorResume | main.py:324-364 | the report is `ReportOf`: both skill lists, missing and matching, recommendations, improved resume, counts and percentage |
| Tailor.Preview | main.py:351 | the first 1000 characters and `...` for a longer text, the text itself otherwise |
| Tailor.PreviewShape | main.py:351 | the preview is the text itself up to 1000 characters; a longer text is cut to 1000 and ends in `...` |
| Tailor.ReportConsistent | main.py:349-364 | missing plus matching counts make the job-skill count; the percentage is 100 exactly when nothing is missing; the add-skills advice appears exactly when something is |

## Left out

- PDF text extraction (`extract_text_from_pdf`, main.py:287-302): PyPDF2 is foreign code; the model starts from the extracted text.
- Request validation and HTTP errors (main.py:304-316, 366-369): FastAPI framework behaviour, not analysis logic.
- The sentence-embedding similarity (main.py:332-333): a neural model; the cosine similarity is a parameter. It is a real standing for the double's exact value, and the two thresholds are the exact values of the doubles `0.7` and `0.85`, so the comparisons of main.py:337 and 342 decide as Python does.
- spaCy's named entities and noun chunks (main.py:29, 44, 57): a neural model; they are inputs of `ExtractSkills`.
- The `job_desc` echo in the response (main.py:352): it copies an input and is not part of `Report`.
- The health-check endpoint and the CORS setup: framework configuration.
- Analysis.MatchPercentage: computed on exact reals, not on IEEE doubles, so rounding is not modelled.
- Lists.Dedup: `list(set(..))` has an unspecified order in Python; the model keeps first occurrences, and its contracts state only membership, no duplicates and length.
- Text.Lower, Text.Upper, Text.Title: ASCII only; Python's Unicode case mapping is not modelled.
- Text.IsDigit, Text.HasDigit: ASCII `0-9` only, where `str.isdigit` also accepts other Unicode digits such as `²` or `٣`; so Contact.IsNameLine (main.py:154) accepts a line like `John Smith ²` that the source rejects.
- Text.IsUpperChar, Text.HasUpper: ASCII `A-Z` only, where `str.isupper` also accepts capitals such as `É`; so Skills.IsTechChunk (main.py:60) drops a chunk like `Élan` that the source keeps.
- Regex.Match: that the end it reports is the end Python's engine reports rests on the order in which it tries alternatives; a contract states this only for the trailing `[\w-]+` of the link patterns (Regex.StarGreedy, Contact.LinksGreedy), not for the e-mail and phone patterns.
- Regex.AtBoundary: `\w`, `\b` and IGNORECASE folding use ASCII letters, digits and `_` only.
- Regex.Search: only the four patterns of `extract_contact_info` are expressible; no general regex engine is modelled.
- Sections.HeaderLabel: the header patterns are alternations of literal words, so `re.search` is modelled as substring search.
