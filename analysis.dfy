/**
 * The comparison `tailor_resume` makes between the job's skills and the
 * resume's: which job skills are missing from the resume and which match,
 * compared case-insensitively; the recommendations that follow from them and
 * from the similarity of the two texts; and the skill match percentage.
 */
module Analysis {
  import opened Text
  import opened Lists

  /** `[rs.lower() for rs in resume_skills]` */
  function LowerAll(xs: seq<string>): seq<string>
  {
    seq(|xs|, i requires 0 <= i < |xs| => Lower(xs[i]))
  }

  /** `skill.lower() in [rs.lower() for rs in resume_skills]` */
  predicate Covered(skill: string, resume: seq<string>)
  {
    Lower(skill) in LowerAll(resume)
  }

  /** The job skills the resume lacks, in the job's order. */
  function Missing(job: seq<string>, resume: seq<string>): seq<string>
  {
    if job == [] then []
    else
      var last := job[|job| - 1];
      Missing(job[..|job| - 1], resume) + (if Covered(last, resume) then [] else [last])
  }

  /** The job skills the resume has, in the job's order. */
  function Matching(job: seq<string>, resume: seq<string>): seq<string>
  {
    if job == [] then []
    else
      var last := job[|job| - 1];
      Matching(job[..|job| - 1], resume) + (if Covered(last, resume) then [last] else [])
  }

  /** A skill is covered exactly when some resume skill has the same lower-case form. */
  lemma CoveredIff(skill: string, resume: seq<string>)
    ensures Covered(skill, resume) <==> exists j :: 0 <= j < |resume| && Lower(resume[j]) == Lower(skill)
  {
    if Covered(skill, resume) {
      var j :| 0 <= j < |resume| && LowerAll(resume)[j] == Lower(skill);
      assert Lower(resume[j]) == Lower(skill);
    } else {
      forall j | 0 <= j < |resume| ensures Lower(resume[j]) != Lower(skill) {
        assert LowerAll(resume)[j] == Lower(resume[j]);
      }
    }
  }

  // ---------------------------------------------------------------------------
  // The two lists partition the job's skills

  lemma {:induction false} MissingIff(job: seq<string>, resume: seq<string>, x: string)
    ensures x in Missing(job, resume) <==> x in job && !Covered(x, resume)
  {
    if job != [] {
      var prefix := job[..|job| - 1];
      MissingIff(prefix, resume, x);
      assert job == prefix + [job[|job| - 1]];
    }
  }

  lemma {:induction false} MatchingIff(job: seq<string>, resume: seq<string>, x: string)
    ensures x in Matching(job, resume) <==> x in job && Covered(x, resume)
  {
    if job != [] {
      var prefix := job[..|job| - 1];
      MatchingIff(prefix, resume, x);
      assert job == prefix + [job[|job| - 1]];
    }
  }

  /** Every job skill lands in exactly one of the lists, as often as it occurs in the job. */
  lemma {:induction false} Partition(job: seq<string>, resume: seq<string>)
    ensures multiset(Missing(job, resume)) + multiset(Matching(job, resume)) == multiset(job)
  {
    if job != [] {
      var prefix, last := job[..|job| - 1], job[|job| - 1];
      Partition(prefix, resume);
      assert job == prefix + [last];
      SplitStep(prefix, last, Matching(prefix, resume), Missing(prefix, resume), Matching(job, resume), Missing(job, resume));
      assert multiset(Missing(job, resume)) + multiset(Matching(job, resume))
          == multiset(Matching(job, resume)) + multiset(Missing(job, resume));
    }
  }

  lemma PartitionLengths(job: seq<string>, resume: seq<string>)
    ensures |Missing(job, resume)| + |Matching(job, resume)| == |job|
  {
    Partition(job, resume);
    assert |multiset(Missing(job, resume)) + multiset(Matching(job, resume))| == |multiset(job)|;
  }

  /** Both lists keep the job's order. */
  lemma {:induction false} OrderPreserved(job: seq<string>, resume: seq<string>)
    ensures IsSubsequence(Missing(job, resume), job)
    ensures IsSubsequence(Matching(job, resume), job)
  {
    if job != [] {
      var prefix := job[..|job| - 1];
      OrderPreserved(prefix, resume);
      var last := job[|job| - 1];
      var m, k := Missing(prefix, resume), Matching(prefix, resume);
      if Covered(last, resume) {
        assert Missing(job, resume) == m;
        assert Matching(job, resume) == k + [last];
        assert (k + [last])[..|k|] == k;
      } else {
        assert Missing(job, resume) == m + [last];
        assert Matching(job, resume) == k;
        assert (m + [last])[..|m|] == m;
      }
    }
  }

  /**
   * Only the set of lower-case forms of the resume's skills matters: their
   * order, repetitions and letter case do not change either list.
   */
  lemma {:induction false} DependsOnLowerSet(job: seq<string>, resume1: seq<string>, resume2: seq<string>)
    requires forall s :: s in LowerAll(resume1) <==> s in LowerAll(resume2)
    ensures Missing(job, resume1) == Missing(job, resume2)
    ensures Matching(job, resume1) == Matching(job, resume2)
  {
    if job != [] {
      DependsOnLowerSet(job[..|job| - 1], resume1, resume2);
    }
  }

  // ---------------------------------------------------------------------------
  // Recommendations

  // The similarity is a double and the thresholds are the double literals
  // `0.7` and `0.85`; these are the exact values of those two doubles, so
  // that comparing a double's exact value with them decides as Python does.

  /** Below this similarity the resume is told to take up more of the job's wording. */
  const LowSimilarity: real := 0.6999999999999999555910790149937383830547332763671875

  /** At or above this similarity the resume is called an excellent match. */
  const HighSimilarity: real := 0.84999999999999997779553950749686919152736663818359375

  /** At most this many missing skills are named in a recommendation. */
  const MaxSuggested: nat := 5

  // The messages are written in short pieces so that the verifier can look
  // up single characters of them.
  const AddKeywords: string := "Consider adding " + "more relevant keywords " + "from the job description"
  const HighlightExperience: string := "Highlight experiences " + "that match the job requirements"
  const AddSkillsPrefix: string := "Consider adding " + "these skills: "
  const ExcellentMatch: string := "Excellent match! " + "Your resume aligns well " + "with the job requirements"

  /** The advice naming the first missing skills. */
  function AddSkills(missing: seq<string>): string
  {
    AddSkillsPrefix + Join(Take(missing, MaxSuggested), ", ")
  }

  /** The recommendations, for the cosine similarity `similarity` of the two texts. */
  function Recommendations(similarity: real, missing: seq<string>): seq<string>
  {
    (if similarity < LowSimilarity then [AddKeywords, HighlightExperience] else [])
    + (if missing != [] then [AddSkills(missing)] else [])
    + (if similarity >= HighSimilarity then [ExcellentMatch] else [])
  }

  /** No fixed advice is mistaken for the missing-skills advice. */
  lemma FixedAdviceDiffers()
    ensures !StartsWith(AddKeywords, AddSkillsPrefix)
    ensures !StartsWith(HighlightExperience, AddSkillsPrefix)
    ensures !StartsWith(ExcellentMatch, AddSkillsPrefix)
  {
    assert AddKeywords[16] != AddSkillsPrefix[16];
    assert HighlightExperience[0] != AddSkillsPrefix[0];
    assert ExcellentMatch[0] != AddSkillsPrefix[0];
  }

  /**
   * Each piece of advice is given exactly when its condition holds; the
   * missing-skills advice names the first five missing skills.
   */
  lemma RecommendationsIff(similarity: real, missing: seq<string>)
    ensures AddKeywords in Recommendations(similarity, missing) <==> similarity < LowSimilarity
    ensures HighlightExperience in Recommendations(similarity, missing) <==> similarity < LowSimilarity
    ensures ExcellentMatch in Recommendations(similarity, missing) <==> similarity >= HighSimilarity
    ensures (exists r :: r in Recommendations(similarity, missing) && StartsWith(r, AddSkillsPrefix))
        <==> missing != []
    ensures missing != [] ==> AddSkills(missing) in Recommendations(similarity, missing)
  {
    FixedAdviceDiffers();
    var recs := Recommendations(similarity, missing);
    if missing != [] {
      assert StartsWith(AddSkills(missing), AddSkillsPrefix);
    }
    assert AddKeywords != ExcellentMatch && HighlightExperience != ExcellentMatch by {
      assert AddKeywords[0] != ExcellentMatch[0];
      assert HighlightExperience[0] != ExcellentMatch[0];
    }
    assert AddKeywords != HighlightExperience by {
      assert AddKeywords[0] != HighlightExperience[0];
    }
  }

  /** A resume is never both told it matches poorly and that it matches excellently. */
  lemma NoMixedVerdict(similarity: real, missing: seq<string>)
    ensures !(AddKeywords in Recommendations(similarity, missing) && ExcellentMatch in Recommendations(similarity, missing))
  {
    RecommendationsIff(similarity, missing);
  }

  // ---------------------------------------------------------------------------
  // Skill match percentage

  /** `len(matching_skills) / len(job_skills) * 100 if job_skills else 0` */
  function MatchPercentage(matching: seq<string>, job: seq<string>): real
  {
    if job != [] then (|matching| as real) / (|job| as real) * 100.0 else 0.0
  }

  /**
   * The percentage is 0 without job skills, lies between 0 and 100, and is
   * 100 exactly when the job has skills and none is missing.
   */
  lemma PercentageBounds(job: seq<string>, resume: seq<string>)
    ensures job == [] ==> MatchPercentage(Matching(job, resume), job) == 0.0
    ensures 0.0 <= MatchPercentage(Matching(job, resume), job) <= 100.0
    ensures MatchPercentage(Matching(job, resume), job) == 100.0 <==> job != [] && Missing(job, resume) == []
  {
    PartitionLengths(job, resume);
    if job != [] {
      RatioBounds(|Matching(job, resume)|, |job|);
    }
  }

  /** A share of `n` items, as a percentage. */
  lemma RatioBounds(m: nat, n: nat)
    requires 0 < n && m <= n
    ensures 0.0 <= (m as real) / (n as real) * 100.0 <= 100.0
    ensures (m as real) / (n as real) * 100.0 == 100.0 <==> m == n
  {
    var a, b := m as real, n as real;
    var q := a / b;
    assert q * b == a;
    assert 0.0 <= q;
    if m == n {
      assert q == 1.0;
    } else {
      assert (1.0 - q) * b == b - a;
      assert 0.0 < 1.0 - q;
    }
  }
}
