/**
 * The analysis `tailor_resume` performs once its inputs are accepted and the
 * resume's text is extracted: both skill lists, their comparison, the
 * recommendations, the improved resume and the summary figures of the
 * response.
 */
module Tailor {
  import opened Text
  import opened Skills
  import opened Analysis
  import opened Composer

  /** What the language model finds in one text. */
  datatype Parse = Parse(entities: seq<Entity>, chunks: seq<string>)

  /** The fields of the response that the model computes. */
  datatype Report = Report(
    similarity: real,
    resumePreview: string,
    resumeSkills: seq<string>,
    jobSkills: seq<string>,
    missing: seq<string>,
    matching: seq<string>,
    recommendations: seq<string>,
    improvedResume: string,
    totalResumeSkills: nat,
    totalJobSkills: nat,
    matchPercentage: real)

  /** The response shows at most this many characters of the resume. */
  const PreviewLength: nat := 1000

  /** `resume_text[:1000] + "..." if len(resume_text) > 1000 else resume_text` */
  function Preview(text: string): string
  {
    if |text| > PreviewLength then text[..PreviewLength] + "..." else text
  }

  /**
   * The preview is the whole text when it is short; a longer text is cut to
   * its first 1000 characters and marked with an ellipsis.
   */
  lemma PreviewShape(text: string)
    ensures |Preview(text)| <= PreviewLength + 3
    ensures |text| <= PreviewLength ==> Preview(text) == text
    ensures |text| > PreviewLength ==>
      && |Preview(text)| == PreviewLength + 3
      && StartsWith(Preview(text), text[..PreviewLength])
      && EndsWith(Preview(text), "...")
  {
    if |text| > PreviewLength {
      var p := text[..PreviewLength] + "...";
      assert p[..PreviewLength] == text[..PreviewLength];
      assert p[PreviewLength..] == "...";
    }
  }

  /** The report for a resume and a job text, given what the models found in them. */
  function ReportOf(resumeText: string, jobDesc: string, resumeParse: Parse, jobParse: Parse, similarity: real): Report
  {
    var resumeSkills := SkillsOf(resumeText, resumeParse.entities, resumeParse.chunks);
    var jobSkills := SkillsOf(jobDesc, jobParse.entities, jobParse.chunks);
    var missing := Missing(jobSkills, resumeSkills);
    var matching := Matching(jobSkills, resumeSkills);
    Report(
      similarity,
      Preview(resumeText),
      resumeSkills,
      jobSkills,
      missing,
      matching,
      Recommendations(similarity, missing),
      ImprovedResume(resumeText, missing, matching),
      |resumeSkills|,
      |jobSkills|,
      MatchPercentage(matching, jobSkills))
  }

  /**
   * The body of `tailor_resume` after validation and text extraction;
   * `similarity` is the cosine similarity of the two texts' embeddings.
   */
  method TailorResume(resumeText: string, jobDesc: string, resumeParse: Parse, jobParse: Parse, similarity: real)
    returns (report: Report)
    ensures report == ReportOf(resumeText, jobDesc, resumeParse, jobParse, similarity)
  {
    var resumeSkills := ExtractSkills(resumeText, resumeParse.entities, resumeParse.chunks);
    var jobSkills := ExtractSkills(jobDesc, jobParse.entities, jobParse.chunks);
    var missing := Missing(jobSkills, resumeSkills);
    var matching := Matching(jobSkills, resumeSkills);
    var recommendations := Recommendations(similarity, missing);
    var improved := GenerateImprovedResume(resumeText, jobDesc, missing, matching);
    report := Report(
      similarity,
      Preview(resumeText),
      resumeSkills,
      jobSkills,
      missing,
      matching,
      recommendations,
      improved,
      |resumeSkills|,
      |jobSkills|,
      MatchPercentage(matching, jobSkills));
  }

  /**
   * The figures of the report agree with its lists: the job's skills are
   * split between missing and matching, the percentage is 100 exactly when
   * nothing is missing, and the missing-skills advice is given exactly when
   * something is.
   */
  lemma ReportConsistent(resumeText: string, jobDesc: string, resumeParse: Parse, jobParse: Parse, similarity: real)
    ensures var r := ReportOf(resumeText, jobDesc, resumeParse, jobParse, similarity);
      && |r.missing| + |r.matching| == r.totalJobSkills
      && (r.matchPercentage == 100.0 <==> r.totalJobSkills > 0 && r.missing == [])
      && (r.missing != [] <==> exists rec :: rec in r.recommendations && StartsWith(rec, AddSkillsPrefix))
  {
    var r := ReportOf(resumeText, jobDesc, resumeParse, jobParse, similarity);
    PartitionLengths(r.jobSkills, r.resumeSkills);
    PercentageBounds(r.jobSkills, r.resumeSkills);
    RecommendationsIff(similarity, r.missing);
  }
}
