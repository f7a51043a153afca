/**
 * The simplified agents (ai-service/agents/simple_agents.py): fixed-output
 * parsers that only read the first line, a set-overlap match score, a
 * truncating summarizer and a skill-difference gap report. Python's
 * `str.lower` is modelled on ASCII letters.
 */
module SimpleAgents {
  import opened Common
  import opened Text
  import opened Lists
  import opened AgentTypes

  /** The first line of `content`: `content.split('\n')` is never empty, so the
      fallback the source writes for an empty split is never used. */
  function FirstLine(content: string, fallback: string): (r: string)
    ensures '\n' !in r
    ensures content == r || StartsWith(content, r + "\n")
  {
    var lines := Split(content, '\n');
    JoinSplit(content, '\n');
    if |lines| > 0 then
      var r := lines[0];
      assert r in lines;
      if |lines| == 1 then r
      else
        assert content == r + "\n" + Join(lines[1..], "\n");
        assert content[..|r + "\n"|] == r + "\n";
        r
    else fallback
  }

  /** `SimpleResumeParserAgent.parse`: the name is the first line, the rest is fixed. */
  function ParseResume(content: string): (r: Resume)
    ensures r.name == FirstLine(content, "Unknown")
    ensures r.email == "candidate@example.com" && r.phone == "555-123-4567"
    ensures r.skills == ["Python", "JavaScript", "Communication"]
    ensures |r.education| == 1 && |r.experience| == 1
  {
    Resume(FirstLine(content, "Unknown"), "candidate@example.com", "555-123-4567",
           ["Python", "JavaScript", "Communication"],
           [Education("Bachelor's", "Computer Science", "Example University", "2020")],
           [Experience("Software Developer", "Tech Company", "2020-2022",
                       "Developed web applications using modern frameworks")])
  }

  /** A parsed job description. */
  datatype ParsedJobDescription = ParsedJobDescription(
    title: string, company: string, requirements: seq<string>, responsibilities: seq<string>,
    skills: seq<string>, location: string, jobType: string)

  /** `SimpleJDParserAgent.parse`: the title is the first line, the rest is fixed. */
  function ParseJob(content: string): (r: ParsedJobDescription)
    ensures r.title == FirstLine(content, "Software Developer")
    ensures r.company == "Example Corp" && r.location == "Remote" && r.jobType == "Full-time"
    ensures |r.requirements| == 3 && |r.responsibilities| == 3
    ensures r.skills == ["Python", "JavaScript", "React", "Node.js"]
  {
    ParsedJobDescription(
      FirstLine(content, "Software Developer"), "Example Corp",
      ["Bachelor's degree in Computer Science or related field",
       "3+ years of experience in software development",
       "Proficiency in Python and JavaScript"],
      ["Develop and maintain web applications",
       "Collaborate with cross-functional teams",
       "Write clean, maintainable code"],
      ["Python", "JavaScript", "React", "Node.js"], "Remote", "Full-time")
  }

  /** `set([s.lower() for s in skills])`. */
  function LowerSet(skills: seq<string>): set<string> {
    set s | s in skills :: Lower(s)
  }

  datatype MatchScores = MatchScores(score: real, skillsScore: real, experienceScore: real, requirementsScore: real)

  lemma SubsetCard<T>(a: set<T>, b: set<T>)
    requires a <= b
    ensures |a| <= |b|
    decreases |b|
  {
    if a != {} {
      var x :| x in a;
      SubsetCard(a - {x}, b - {x});
    }
  }

  /** `SimpleMatchingAgent.match`: the share of the job's (lower-cased) skills the
      resume has, or 0.5 when the job lists none. */
  function Match(resumeSkills: seq<string>, jobSkills: seq<string>): (r: MatchScores)
    ensures 0.0 <= r.score <= 1.0
    ensures LowerSet(jobSkills) == {} ==> r.score == 0.5
    ensures LowerSet(jobSkills) != {} ==>
      r.score * (|LowerSet(jobSkills)| as real) == |LowerSet(resumeSkills) * LowerSet(jobSkills)| as real
    ensures LowerSet(jobSkills) != {} ==>
      (r.score == 1.0 <==> LowerSet(jobSkills) <= LowerSet(resumeSkills))
    ensures LowerSet(jobSkills) != {} ==>
      (r.score == 0.0 <==> LowerSet(jobSkills) * LowerSet(resumeSkills) == {})
    ensures r.skillsScore == r.score && r.experienceScore == 0.5 && r.requirementsScore == 0.5
  {
    var rs := LowerSet(resumeSkills);
    var js := LowerSet(jobSkills);
    var matching := rs * js;
    OverlapFacts(rs, js);
    var score := if js == {} then 0.5 else (|matching| as real) / (|js| as real);
    assert js != {} ==> score * (|js| as real) == |matching| as real;
    MatchScores(score, score, 0.5, 0.5)
  }

  /** A resume with more skills never scores lower against the same job. */
  lemma MoreSkillsNeverLower(fewer: seq<string>, more: seq<string>, jobSkills: seq<string>)
    requires LowerSet(fewer) <= LowerSet(more)
    ensures Match(fewer, jobSkills).score <= Match(more, jobSkills).score
  {
    var js := LowerSet(jobSkills);
    if js != {} {
      SubsetCard(LowerSet(fewer) * js, LowerSet(more) * js);
      var n := |js| as real;
      var a := Match(fewer, jobSkills).score;
      var b := Match(more, jobSkills).score;
      assert a * n <= b * n;
    }
  }

  /** The overlap is no larger than the job's skills, as large exactly when it covers them,
      and empty exactly when it has no element. */
  lemma OverlapFacts(rs: set<string>, js: set<string>)
    ensures |rs * js| <= |js|
    ensures |rs * js| == |js| <==> js <= rs
    ensures |rs * js| == 0 <==> rs * js == {}
  {
    SubsetCard(rs * js, js);
    if |rs * js| == |js| {
      SameCardSubset(rs * js, js);
    }
    if js <= rs {
      assert rs * js == js;
    }
  }

  /** A subset as large as its superset is the superset. */
  lemma SameCardSubset<T>(a: set<T>, b: set<T>)
    requires a <= b && |a| == |b|
    ensures a == b
  {
    if a != b {
      var x :| x in b && x !in a;
      SubsetCard(a, b - {x});
    }
  }

  /** `SimpleSummarizationAgent.summarize`: a prefix by type, then the content cut to 100
      characters with "..." when longer. */
  function SimpleSummary(content: string, kind: string): (r: string)
    ensures var prefix := if kind == "resume" then "Professional Summary: " else if kind == "job" then "Job Overview: " else "Summary: ";
      && StartsWith(r, prefix)
      && (|content| <= 100 ==> r == prefix + content)
      && (|content| > 100 ==> |r| == |prefix| + 103 && StartsWith(r, prefix + content[..100]) && EndsWith(r, "..."))
  {
    var prefix := if kind == "resume" then "Professional Summary: " else if kind == "job" then "Job Overview: " else "Summary: ";
    var summary := if |content| > 100 then content[..100] + "..." else content;
    var r := prefix + summary;
    assert r[..|prefix|] == prefix;
    assert |content| > 100 ==> r[..|prefix| + 100] == prefix + content[..100];
    assert |content| > 100 ==> r[|r| - 3..] == "...";
    r
  }

  /** `SimpleGapDetectionAgent.detect`: the job skills the resume lacks (compared in lower
      case, reported as written), then the first requirement when there is one. */
  function SimpleGaps(resumeSkills: seq<string>, jobSkills: seq<string>, requirements: Option<seq<string>>): (r: Gaps)
    ensures forall s :: s in r.missingSkills <==> s in jobSkills && Lower(s) !in LowerSet(resumeSkills)
    ensures IsSubseq(r.missingSkills, jobSkills)
    ensures forall s :: multiset(r.missingSkills)[s] == if Lower(s) !in LowerSet(resumeSkills) then multiset(jobSkills)[s] else 0
    ensures r.missingRequirements == (if requirements.Some? && |requirements.value| > 0 then [requirements.value[0]] else [])
    ensures r.gaps == r.missingSkills + r.missingRequirements
  {
    var rs := LowerSet(resumeSkills);
    var missing := Filter(jobSkills, s => Lower(s) !in rs);
    FilterIsSubseq(jobSkills, s => Lower(s) !in rs);
    FilterCounts(jobSkills, s => Lower(s) !in rs);
    var missingReqs := if requirements.Some? && |requirements.value| > 0 then [requirements.value[0]] else [];
    Gaps(missing + missingReqs, missing, missingReqs)
  }
}
