/**
 * The gap-detection agent (ai-service/agents/gap_detection.py): which job
 * skills and which job requirements a resume does not cover.
 *
 * Both similarity models are parameters: `bestMatch(s)` is the highest cosine
 * similarity between job skill `s` and the resume's skills, and
 * `similarity(text, req)` the cosine similarity between the combined resume
 * text and requirement `req`.
 */
module GapDetection {
  import opened Text
  import opened Lists
  import opened AgentTypes

  /** A job skill counts as present when its best similarity exceeds this. */
  const SkillThreshold: real := 0.75
  /** A requirement counts as missing when its similarity is below this. */
  const RequirementThreshold: real := 0.6

  function LowerAll(xs: seq<string>): (r: seq<string>)
    ensures |r| == |xs|
    ensures forall i :: 0 <= i < |xs| ==> r[i] == Lower(xs[i])
  {
    seq(|xs|, i requires 0 <= i < |xs| => Lower(xs[i]))
  }

  // ---------------------------------------------------------------------
  // missing skills

  /** The job skills left after the exact, case-insensitive comparison. */
  function ExactMissing(resumeSkills: seq<string>, jobSkills: seq<string>): set<string>
  {
    set s | s in jobSkills && Lower(s) !in LowerAll(resumeSkills)
  }

  /** `_detect_missing_skills`: every job skill when either list is empty; otherwise
      the job skills, in their original case, that neither match a resume skill
      exactly (ignoring case) nor come close enough semantically. */
  function MissingSkills(resumeSkills: seq<string>, jobSkills: seq<string>, bestMatch: string -> real): (r: set<string>)
    ensures forall s :: s in r ==> s in jobSkills
    ensures |resumeSkills| == 0 || |jobSkills| == 0 ==> forall s :: s in jobSkills ==> s in r
    ensures |resumeSkills| > 0 ==> forall s :: s in jobSkills && Lower(s) in LowerAll(resumeSkills) ==> s !in r
  {
    if |resumeSkills| == 0 || |jobSkills| == 0 then set s | s in jobSkills
    else set s | s in ExactMissing(resumeSkills, jobSkills) && !(bestMatch(s) > SkillThreshold)
  }

  /** The semantic comparison only takes skills away from the exact-match result,
      exactly those above the threshold, and takes none when no job skill is above it. */
  lemma SemanticOnlyRemoves(resumeSkills: seq<string>, jobSkills: seq<string>, bestMatch: string -> real)
    requires |resumeSkills| > 0
    ensures MissingSkills(resumeSkills, jobSkills, bestMatch) <= ExactMissing(resumeSkills, jobSkills)
    ensures forall s :: s in ExactMissing(resumeSkills, jobSkills) ==>
      (s in MissingSkills(resumeSkills, jobSkills, bestMatch) <==> bestMatch(s) <= SkillThreshold)
    ensures (forall s :: s in jobSkills ==> bestMatch(s) <= SkillThreshold) ==>
      MissingSkills(resumeSkills, jobSkills, bestMatch) == ExactMissing(resumeSkills, jobSkills)
  {
    if |jobSkills| == 0 {
      assert MissingSkills(resumeSkills, jobSkills, bestMatch) == {};
      assert ExactMissing(resumeSkills, jobSkills) == {};
    }
  }

  /** The index list `range(n)`. */
  function Indices(n: nat): (r: seq<int>)
    ensures |r| == n
    ensures forall k :: k in r <==> 0 <= k < n
  {
    var r := seq(n, k requires 0 <= k < n => k);
    assert forall k :: k in r ==> 0 <= k < n by {
      forall k | k in r ensures 0 <= k < n {
        var i :| 0 <= i < n && r[i] == k;
      }
    }
    assert forall k :: 0 <= k < n ==> k in r by {
      forall k | 0 <= k < n ensures k in r {
        assert r[k] == k;
      }
    }
    r
  }

  /** The exact-match loop: the indices whose lower-cased skill is among the
      lower-cased resume skills, and the original-case skills of the others. */
  method ExactPass(resumeLower: seq<string>, jobSkills: seq<string>)
    returns (matched: set<int>, missing: set<string>)
    ensures forall k :: k in matched <==> 0 <= k < |jobSkills| && Lower(jobSkills[k]) in resumeLower
    ensures forall s :: s in missing <==> s in jobSkills && Lower(s) !in resumeLower
  {
    var jobLower := LowerAll(jobSkills);
    missing := {};
    matched := {};
    var i := 0;
    while i < |jobSkills|
      invariant 0 <= i <= |jobSkills|
      invariant forall k :: k in matched <==> 0 <= k < i && Lower(jobSkills[k]) in resumeLower
      invariant forall s :: s in missing <==> s in jobSkills[..i] && Lower(s) !in resumeLower
    {
      if jobLower[i] in resumeLower {
        matched := matched + {i};
      } else {
        missing := missing + {jobSkills[i]};
      }
      assert jobSkills[..i + 1] == jobSkills[..i] + [jobSkills[i]];
      i := i + 1;
    }
    assert jobSkills[..i] == jobSkills;
  }

  /** The semantic loop: the remaining indices whose best similarity is above the threshold. */
  method SemanticPass(remaining: seq<int>, jobSkills: seq<string>, bestMatch: string -> real)
    returns (semantic: set<int>)
    ensures forall k :: k in semantic <==>
      k in remaining && 0 <= k < |jobSkills| && bestMatch(jobSkills[k]) > SkillThreshold
  {
    semantic := {};
    var j := 0;
    while j < |remaining|
      invariant 0 <= j <= |remaining|
      invariant forall k :: k in semantic <==>
        k in remaining[..j] && 0 <= k < |jobSkills| && bestMatch(jobSkills[k]) > SkillThreshold
    {
      var k := remaining[j];
      if 0 <= k < |jobSkills| && bestMatch(jobSkills[k]) > SkillThreshold {
        semantic := semantic + {k};
      }
      assert remaining[..j + 1] == remaining[..j] + [k];
      j := j + 1;
    }
    assert remaining[..j] == remaining;
  }

  /** `_detect_missing_skills` step by step: the exact-match loop, then the
      semantic pass over the unmatched indices. */
  method DetectMissingSkills(resumeSkills: seq<string>, jobSkills: seq<string>, bestMatch: string -> real)
    returns (missing: set<string>)
    ensures missing == MissingSkills(resumeSkills, jobSkills, bestMatch)
  {
    if |resumeSkills| == 0 || |jobSkills| == 0 {
      return set s | s in jobSkills;
    }
    var resumeLower := LowerAll(resumeSkills);
    var matched;
    matched, missing := ExactPass(resumeLower, jobSkills);
    ghost var spec := MissingSkills(resumeSkills, jobSkills, bestMatch);
    if |missing| > 0 {
      var remaining := Filter(Indices(|jobSkills|), k => k !in matched);
      assert |remaining| > 0 by {
        var s :| s in missing;
        var k :| 0 <= k < |jobSkills| && jobSkills[k] == s;
        assert k in remaining;
      }
      if |remaining| > 0 {
        var semantic := SemanticPass(remaining, jobSkills, bestMatch);
        missing := set k | k in remaining && k !in semantic && 0 <= k < |jobSkills| :: jobSkills[k];
        forall s | s in spec ensures s in missing {
          var k :| 0 <= k < |jobSkills| && jobSkills[k] == s;
          assert k in remaining;
        }
      }
    }
  }

  // ---------------------------------------------------------------------
  // missing requirements

  /** The `key: value` pairs of a record whose value is non-empty, in key order. */
  function Pairs(kvs: seq<(string, string)>): (r: seq<string>)
    ensures |r| <= |kvs|
    decreases |kvs|
  {
    if |kvs| == 0 then []
    else (if kvs[0].1 != "" then [kvs[0].0 + ": " + kvs[0].1] else []) + Pairs(kvs[1..])
  }

  function EducationText(e: Education): string {
    Join(Pairs([("degree", e.degree), ("field", e.field), ("institution", e.institution), ("year", e.year)]), ", ")
  }

  function ExperienceText(x: Experience): string {
    Join(Pairs([("title", x.title), ("company", x.company), ("duration", x.duration), ("description", x.description)]), ", ")
  }

  function EducationTexts(es: seq<Education>): (r: seq<string>)
    ensures |r| == |es|
  {
    seq(|es|, i requires 0 <= i < |es| => EducationText(es[i]))
  }

  function ExperienceTexts(xs: seq<Experience>): (r: seq<string>)
    ensures |r| == |xs|
  {
    seq(|xs|, i requires 0 <= i < |xs| => ExperienceText(xs[i]))
  }

  /** The parts of the combined resume text: skills, education, experience, each only when present. */
  function ResumeParts(resume: Resume): (r: seq<string>)
    ensures |r| > 0 <==> |resume.skills| > 0 || |resume.education| > 0 || |resume.experience| > 0
    ensures forall p :: p in r ==> |p| > 0
  {
    (if |resume.skills| > 0 then ["Skills: " + Join(resume.skills, ", ")] else [])
    + (if |resume.education| > 0 then ["Education: " + Join(EducationTexts(resume.education), "; ")] else [])
    + (if |resume.experience| > 0 then ["Experience: " + Join(ExperienceTexts(resume.experience), "; ")] else [])
  }

  lemma JoinKeepsFirst(parts: seq<string>, sep: string)
    requires |parts| > 0
    ensures |Join(parts, sep)| >= |parts[0]|
  {
  }

  /** The text the requirements are compared against. */
  function ResumeText(resume: Resume): (r: string)
    ensures r == "" <==> |resume.skills| == 0 && |resume.education| == 0 && |resume.experience| == 0
  {
    var parts := ResumeParts(resume);
    if |parts| > 0 then
      JoinKeepsFirst(parts, " ");
      assert parts[0] in parts;
      Join(parts, " ")
    else Join(parts, " ")
  }

  /** `_detect_missing_requirements`: none for no requirements, all of them when the
      resume has nothing to compare, otherwise those scoring below the threshold. */
  function MissingRequirements(resume: Resume, requirements: seq<string>, similarity: (string, string) -> real): (r: seq<string>)
    ensures IsSubseq(r, requirements)
    ensures |requirements| == 0 ==> r == []
    ensures |resume.skills| == 0 && |resume.education| == 0 && |resume.experience| == 0 ==> r == requirements
    ensures forall q :: q in r ==> q in requirements
    ensures ResumeText(resume) != "" ==>
      forall q :: q in requirements ==> (q in r <==> similarity(ResumeText(resume), q) < RequirementThreshold)
  {
    if |requirements| == 0 then []
    else if ResumeText(resume) == "" then
      IsSubseqRefl(requirements);
      requirements
    else
      var text := ResumeText(resume);
      FilterIsSubseq(requirements, ScoresLow(text, similarity));
      Filter(requirements, ScoresLow(text, similarity))
  }

  /** A requirement scores below the threshold against the resume text. */
  function ScoresLow(text: string, similarity: (string, string) -> real): string -> bool {
    q => similarity(text, q) < RequirementThreshold
  }

  /** The requirement loop of `_detect_missing_requirements`. */
  method DetectMissingRequirements(resume: Resume, requirements: seq<string>, similarity: (string, string) -> real)
    returns (missing: seq<string>)
    ensures missing == MissingRequirements(resume, requirements, similarity)
  {
    if |requirements| == 0 {
      return [];
    }
    var text := ResumeText(resume);
    if text == "" {
      return requirements;
    }
    var low := ScoresLow(text, similarity);
    missing := [];
    var i := 0;
    while i < |requirements|
      invariant 0 <= i <= |requirements|
      invariant missing == Filter(requirements[..i], low)
    {
      FilterPrefixStep(requirements, i, low);
      if similarity(text, requirements[i]) < RequirementThreshold {
        missing := missing + [requirements[i]];
      }
      i := i + 1;
    }
    assert requirements[..i] == requirements;
    MissingRequirementsFilter(resume, requirements, similarity);
  }

  lemma MissingRequirementsFilter(resume: Resume, requirements: seq<string>, similarity: (string, string) -> real)
    requires |requirements| > 0 && ResumeText(resume) != ""
    ensures MissingRequirements(resume, requirements, similarity) == Filter(requirements, ScoresLow(ResumeText(resume), similarity))
  {
  }

  // ---------------------------------------------------------------------
  // detect

  /** `detect`: the missing skills, the missing requirements, and both together. */
  method Detect(resume: Resume, jobSkills: seq<string>, jobRequirements: seq<string>,
                bestMatch: string -> real, similarity: (string, string) -> real) returns (r: Gaps)
    ensures forall x :: x in r.missingSkills <==> x in MissingSkills(resume.skills, jobSkills, bestMatch)
    ensures |r.missingSkills| == |MissingSkills(resume.skills, jobSkills, bestMatch)|
    ensures Distinct(r.missingSkills)
    ensures r.missingRequirements == MissingRequirements(resume, jobRequirements, similarity)
    ensures r.gaps == r.missingSkills + r.missingRequirements
  {
    var skills := DetectMissingSkills(resume.skills, jobSkills, bestMatch);
    var requirements := DetectMissingRequirements(resume, jobRequirements, similarity);
    var listed := ListOf(skills);
    r := Gaps(listed + requirements, listed, requirements);
  }
}
