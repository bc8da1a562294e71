/**
 * The role scorer: for one parsed resume and one role category, the keywords of each
 * dimension that the resume mentions, the weighted score, and the reasoning sentence;
 * and the ranking of the four role matches of a resume by score.
 */
module RoleMatcher {
  import opened Text
  import opened Seqs
  import opened Sorting
  import opened RoleProfiles
  import opened ResumeParser
  import opened Scores

  /** The result of scoring one resume against one role. */
  datatype RoleMatch = RoleMatch(
    role: RoleCategory,
    score: int,
    matchedSkills: seq<string>,
    matchedExperience: seq<string>,
    matchedEducation: seq<string>,
    matchedCertifications: seq<string>,
    reasoning: string)

  /** The number of matched keywords per dimension. */
  datatype Counts = Counts(skills: nat, experience: nat, education: nat, certifications: nat)

  // ---------------------------------------------------------------------------
  // Keyword matching

  /** Some (already lower-cased) line contains `k`. */
  predicate SomeLineContains(lowerLines: seq<string>, k: string)
  {
    exists l | l in lowerLines :: Contains(l, k)
  }

  /**
   * A profile keyword counts as found when a lower-cased line of the resume's section
   * list, or the lower-cased full text, contains the lower-cased keyword.
   */
  predicate Found(keyword: string, lines: seq<string>, text: string)
  {
    SomeLineContains(LowerAll(lines), Lower(keyword)) || Contains(Lower(text), Lower(keyword))
  }

  function FoundIn(lines: seq<string>, text: string): string -> bool
  {
    k => Found(k, lines, text)
  }

  /** The keywords of one dimension that are found, in profile order. */
  function Matched(keywords: seq<string>, lines: seq<string>, text: string): seq<string>
  {
    Filter(keywords, FoundIn(lines, text))
  }

  /** The matched keywords are the found profile keywords, in profile order. */
  lemma MatchedProperties(keywords: seq<string>, lines: seq<string>, text: string)
    ensures IsSubsequence(Matched(keywords, lines, text), keywords)
    ensures forall k :: k in Matched(keywords, lines, text) <==> k in keywords && Found(k, lines, text)
  {
    FilterIsSubsequence(keywords, FoundIn(lines, text));
    forall k ensures k in Matched(keywords, lines, text) <==> k in keywords && Found(k, lines, text) {
      FilterMembership(keywords, FoundIn(lines, text), k);
    }
  }

  /** One of the four keyword loops of the scorer. */
  method MatchKeywords(keywords: seq<string>, lines: seq<string>, text: string) returns (matched: seq<string>)
    ensures matched == Matched(keywords, lines, text)
  {
    var lowerText := Lower(text);
    var lowerLines := LowerAll(lines);
    matched := [];
    for n := 0 to |keywords|
      invariant matched == Filter(keywords[..n], FoundIn(lines, text))
    {
      assert keywords[..n + 1] == keywords[..n] + [keywords[n]];
      FilterSnoc(keywords[..n], keywords[n], FoundIn(lines, text));
      var k := Lower(keywords[n]);
      if SomeLineContains(lowerLines, k) || Contains(lowerText, k) {
        matched := matched + [keywords[n]];
      }
    }
    assert keywords[..|keywords|] == keywords;
  }

  // ---------------------------------------------------------------------------
  // Score

  /** Every keyword list of the profile is non-empty, so every fraction is defined. */
  predicate HasKeywords(p: RoleProfile)
  {
    |p.skills| > 0 && |p.experience| > 0 && |p.education| > 0 && |p.certifications| > 0
  }

  /** The weighted sum of the four dimension fractions. */
  function Weighted(p: RoleProfile, c: Counts): real
    requires HasKeywords(p)
  {
    Scaled(Fraction(c.skills, |p.skills|), p.weights.skills)
    + Scaled(Fraction(c.experience, |p.experience|), p.weights.experience)
    + Scaled(Fraction(c.education, |p.education|), p.weights.education)
    + Scaled(Fraction(c.certifications, |p.certifications|), p.weights.certifications)
  }

  /** The unrounded score: the weighted sum scaled to percent and capped at 100. */
  function RawScore(p: RoleProfile, c: Counts): real
    requires HasKeywords(p)
  {
    AtMost100(Weighted(p, c) * 100.0)
  }

  /** Counts that do not exceed the sizes of the profile's lists. */
  predicate CountsFit(p: RoleProfile, c: Counts)
  {
    && c.skills <= |p.skills| && c.experience <= |p.experience|
    && c.education <= |p.education| && c.certifications <= |p.certifications|
  }

  /**
   * Each dimension's fraction lies between 0 and 1, and with weights summing to one so
   * does the weighted sum.
   */
  lemma WeightedBounds(p: RoleProfile, c: Counts)
    requires WellFormed(p) && CountsFit(p, c)
    ensures 0.0 <= Fraction(c.skills, |p.skills|) <= 1.0
    ensures 0.0 <= Fraction(c.experience, |p.experience|) <= 1.0
    ensures 0.0 <= Fraction(c.education, |p.education|) <= 1.0
    ensures 0.0 <= Fraction(c.certifications, |p.certifications|) <= 1.0
    ensures 0.0 <= Weighted(p, c) <= 1.0
  {
    FractionBounds(c.skills, |p.skills|);
    FractionBounds(c.experience, |p.experience|);
    FractionBounds(c.education, |p.education|);
    FractionBounds(c.certifications, |p.certifications|);
    WeightedSumBounds(
      Fraction(c.skills, |p.skills|), Fraction(c.experience, |p.experience|),
      Fraction(c.education, |p.education|), Fraction(c.certifications, |p.certifications|),
      p.weights.skills, p.weights.experience, p.weights.education, p.weights.certifications);
  }

  /** More matches in every dimension never give a smaller weighted sum. */
  lemma WeightedMonotone(p: RoleProfile, c1: Counts, c2: Counts)
    requires WellFormed(p)
    requires c1.skills <= c2.skills && c1.experience <= c2.experience
    requires c1.education <= c2.education && c1.certifications <= c2.certifications
    ensures Weighted(p, c1) <= Weighted(p, c2)
  {
    FractionMonotone(c1.skills, c2.skills, |p.skills|);
    FractionMonotone(c1.experience, c2.experience, |p.experience|);
    FractionMonotone(c1.education, c2.education, |p.education|);
    FractionMonotone(c1.certifications, c2.certifications, |p.certifications|);
    WeightedSumMonotone(
      Fraction(c1.skills, |p.skills|), Fraction(c1.experience, |p.experience|),
      Fraction(c1.education, |p.education|), Fraction(c1.certifications, |p.certifications|),
      Fraction(c2.skills, |p.skills|), Fraction(c2.experience, |p.experience|),
      Fraction(c2.education, |p.education|), Fraction(c2.certifications, |p.certifications|),
      p.weights.skills, p.weights.experience, p.weights.education, p.weights.certifications);
  }

  /**
   * For a well-formed profile the cap at 100 never applies, and the unrounded and the
   * rounded score both lie in [0, 100].
   */
  lemma RawScoreBounds(p: RoleProfile, c: Counts)
    requires WellFormed(p) && CountsFit(p, c)
    ensures RawScore(p, c) == Weighted(p, c) * 100.0
    ensures 0.0 <= RawScore(p, c) <= 100.0
    ensures 0 <= Round(RawScore(p, c)) <= 100
  {
    WeightedBounds(p, c);
  }

  // ---------------------------------------------------------------------------
  // Reasoning

  datatype Band = Excellent | Strong | Moderate | Limited

  /** The band of a score: at least 80, at least 60, at least 40, or below. */
  function BandOf(score: real): Band
  {
    if score >= 80.0 then Excellent
    else if score >= 60.0 then Strong
    else if score >= 40.0 then Moderate
    else Limited
  }

  function BandSentence(role: RoleCategory, b: Band): string
  {
    match b
    case Excellent => "Excellent match for " + RoleName(role) + " role."
    case Strong => "Strong candidate for " + RoleName(role) + " position."
    case Moderate => "Moderate fit for " + RoleName(role) + " role."
    case Limited => "Limited alignment with " + RoleName(role) + " requirements."
  }

  function ExperienceClause(n: nat): string
  {
    "Relevant experience found (" + NatToString(n) + " matches)."
  }

  function SkillsClause(n: nat): string
  {
    "Matching skills identified (" + NatToString(n) + " matches)."
  }

  const EducationClause: string := "Relevant education credentials present."

  const CertificationsClause: string := "Applicable certifications detected."

  /** The band sentence, then one clause per non-zero count: experience, skills, education, certifications. */
  function ReasoningParts(role: RoleCategory, score: real, c: Counts): seq<string>
  {
    [BandSentence(role, BandOf(score))]
    + (if c.experience > 0 then [ExperienceClause(c.experience)] else [])
    + (if c.skills > 0 then [SkillsClause(c.skills)] else [])
    + (if c.education > 0 then [EducationClause] else [])
    + (if c.certifications > 0 then [CertificationsClause] else [])
  }

  function Reasoning(role: RoleCategory, score: real, c: Counts): string
  {
    Join(ReasoningParts(role, score, c), " ")
  }

  /** `generateReasoning`: collects the parts one push at a time and joins them. */
  method GenerateReasoning(role: RoleCategory, score: real, c: Counts) returns (reasoning: string)
    ensures reasoning == Reasoning(role, score, c)
  {
    var parts: seq<string> := [];
    if score >= 80.0 {
      parts := parts + ["Excellent match for " + RoleName(role) + " role."];
    } else if score >= 60.0 {
      parts := parts + ["Strong candidate for " + RoleName(role) + " position."];
    } else if score >= 40.0 {
      parts := parts + ["Moderate fit for " + RoleName(role) + " role."];
    } else {
      parts := parts + ["Limited alignment with " + RoleName(role) + " requirements."];
    }
    ghost var expected := [BandSentence(role, BandOf(score))];
    assert parts == expected;
    if c.experience > 0 {
      parts := parts + ["Relevant experience found (" + NatToString(c.experience) + " matches)."];
    }
    expected := expected + (if c.experience > 0 then [ExperienceClause(c.experience)] else []);
    assert parts == expected;
    if c.skills > 0 {
      parts := parts + ["Matching skills identified (" + NatToString(c.skills) + " matches)."];
    }
    expected := expected + (if c.skills > 0 then [SkillsClause(c.skills)] else []);
    assert parts == expected;
    if c.education > 0 {
      parts := parts + ["Relevant education credentials present."];
    }
    expected := expected + (if c.education > 0 then [EducationClause] else []);
    assert parts == expected;
    if c.certifications > 0 {
      parts := parts + ["Applicable certifications detected."];
    }
    expected := expected + (if c.certifications > 0 then [CertificationsClause] else []);
    assert parts == expected == ReasoningParts(role, score, c);
    reasoning := Join(parts, " ");
  }

  function Positive(n: nat): nat
  {
    if n > 0 then 1 else 0
  }

  /**
   * The reasoning opens with the band sentence and has one further part per non-zero
   * count; with no matches at all it is the band sentence alone.
   */
  lemma ReasoningShape(role: RoleCategory, score: real, c: Counts)
    ensures |ReasoningParts(role, score, c)|
      == 1 + Positive(c.experience) + Positive(c.skills) + Positive(c.education) + Positive(c.certifications)
    ensures ReasoningParts(role, score, c)[0] == BandSentence(role, BandOf(score))
    ensures var band := BandSentence(role, BandOf(score));
      |Reasoning(role, score, c)| >= |band| && Reasoning(role, score, c)[..|band|] == band
    ensures c == Counts(0, 0, 0, 0) ==> Reasoning(role, score, c) == BandSentence(role, BandOf(score))
  {
    JoinStartsWithFirst(ReasoningParts(role, score, c), " ");
  }

  /** The certifications clause is present exactly when some certification matched. */
  lemma CertificationsClausePresence(role: RoleCategory, score: real, c: Counts)
    ensures CertificationsClause in ReasoningParts(role, score, c) <==> c.certifications > 0
  {
    if c.certifications == 0 {
      assert CertificationsClause[0] == 'A';
      assert BandSentence(role, BandOf(score))[0] != 'A';
      assert ExperienceClause(c.experience)[0] == 'R';
      assert SkillsClause(c.skills)[0] == 'M';
      assert EducationClause[0] == 'R';
    }
  }

  /** The education clause is present exactly when some education keyword matched. */
  lemma EducationClausePresence(role: RoleCategory, score: real, c: Counts)
    ensures EducationClause in ReasoningParts(role, score, c) <==> c.education > 0
  {
    if c.education == 0 {
      var band := BandSentence(role, BandOf(score));
      assert band[0] != EducationClause[0];
      assert ExperienceClause(c.experience)[10] != EducationClause[10];
      assert SkillsClause(c.skills)[0] != EducationClause[0];
      assert CertificationsClause[0] != EducationClause[0];
    }
  }

  /** The experience clause renders its count: two counts give the same clause only if they are equal. */
  lemma ExperienceClauseInjective(n: nat, m: nat)
    requires ExperienceClause(n) == ExperienceClause(m)
    ensures n == m
  {
    var pre := "Relevant experience found (";
    var post := " matches).";
    assert ExperienceClause(n) == pre + (NatToString(n) + post);
    assert ExperienceClause(m) == pre + (NatToString(m) + post);
    assert NatToString(n) + post == ExperienceClause(n)[|pre|..] == ExperienceClause(m)[|pre|..] == NatToString(m) + post;
    NatToStringPrefixInjective(n, m, post, post);
  }

  /** The skills clause renders its count: two counts give the same clause only if they are equal. */
  lemma SkillsClauseInjective(n: nat, m: nat)
    requires SkillsClause(n) == SkillsClause(m)
    ensures n == m
  {
    var pre := "Matching skills identified (";
    var post := " matches).";
    assert SkillsClause(n) == pre + (NatToString(n) + post);
    assert SkillsClause(m) == pre + (NatToString(m) + post);
    assert NatToString(n) + post == SkillsClause(n)[|pre|..] == SkillsClause(m)[|pre|..] == NatToString(m) + post;
    NatToStringPrefixInjective(n, m, post, post);
  }

  /** An experience clause is none of the other parts the reasoning can hold. */
  lemma ExperienceClauseStandsOut(n: nat, role: RoleCategory, score: real, k: nat)
    ensures ExperienceClause(n) != BandSentence(role, BandOf(score))
    ensures ExperienceClause(n) != SkillsClause(k)
    ensures ExperienceClause(n) != EducationClause && ExperienceClause(n) != CertificationsClause
  {
    var e := ExperienceClause(n);
    assert e[0] == 'R' && e[10] == 'x';
    assert BandSentence(role, BandOf(score))[0] != 'R';
    assert SkillsClause(k)[0] == 'M';
    assert EducationClause[10] != 'x';
  }

  /**
   * The experience clause is present exactly when some experience keyword matched, and
   * the count it reports is the number of experience matches.
   */
  lemma ExperienceClausePresence(role: RoleCategory, score: real, c: Counts)
    ensures c.experience > 0 ==> ExperienceClause(c.experience) in ReasoningParts(role, score, c)
    ensures forall n: nat :: ExperienceClause(n) in ReasoningParts(role, score, c) ==>
      c.experience > 0 && n == c.experience
  {
    forall n: nat | ExperienceClause(n) in ReasoningParts(role, score, c)
      ensures c.experience > 0 && n == c.experience
    {
      var e := ExperienceClause(n);
      ExperienceClauseStandsOut(n, role, score, c.skills);
      assert e == ExperienceClause(c.experience);
      ExperienceClauseInjective(n, c.experience);
    }
  }

  /** A skills clause is none of the other parts the reasoning can hold. */
  lemma SkillsClauseStandsOut(n: nat, role: RoleCategory, score: real, k: nat)
    ensures SkillsClause(n) != BandSentence(role, BandOf(score))
    ensures SkillsClause(n) != ExperienceClause(k)
    ensures SkillsClause(n) != EducationClause && SkillsClause(n) != CertificationsClause
  {
    var e := SkillsClause(n);
    assert e[0] == 'M' && e[1] == 'a';
    var band := BandSentence(role, BandOf(score));
    assert band[0] != 'M' || band[1] != 'a';
    assert ExperienceClause(k)[0] == 'R';
  }

  /**
   * The skills clause is present exactly when some skill matched, and the count it
   * reports is the number of skill matches.
   */
  lemma SkillsClausePresence(role: RoleCategory, score: real, c: Counts)
    ensures c.skills > 0 ==> SkillsClause(c.skills) in ReasoningParts(role, score, c)
    ensures forall n: nat :: SkillsClause(n) in ReasoningParts(role, score, c) ==>
      c.skills > 0 && n == c.skills
  {
    forall n: nat | SkillsClause(n) in ReasoningParts(role, score, c)
      ensures c.skills > 0 && n == c.skills
    {
      var e := SkillsClause(n);
      SkillsClauseStandsOut(n, role, score, c.experience);
      assert e == SkillsClause(c.skills);
      SkillsClauseInjective(n, c.skills);
    }
  }

  // ---------------------------------------------------------------------------
  // One role

  /** The number of keywords of each dimension of `p` that the resume mentions. */
  function MatchCounts(resume: ParsedResume, p: RoleProfile): Counts
  {
    Counts(
      |Matched(p.skills, resume.skills, resume.text)|,
      |Matched(p.experience, resume.experience, resume.text)|,
      |Matched(p.education, resume.education, resume.text)|,
      |Matched(p.certifications, resume.certifications, resume.text)|)
  }

  /** The unrounded score of a resume against a profile; the reasoning is based on it. */
  function UnroundedScore(resume: ParsedResume, p: RoleProfile): real
    requires HasKeywords(p)
  {
    RawScore(p, MatchCounts(resume, p))
  }

  /** `calculateMatch(resume, role, roleData)`. */
  function Match(resume: ParsedResume, role: RoleCategory, p: RoleProfile): RoleMatch
    requires HasKeywords(p)
  {
    var raw := UnroundedScore(resume, p);
    RoleMatch(role, Round(raw),
      Matched(p.skills, resume.skills, resume.text),
      Matched(p.experience, resume.experience, resume.text),
      Matched(p.education, resume.education, resume.text),
      Matched(p.certifications, resume.certifications, resume.text),
      Reasoning(role, raw, MatchCounts(resume, p)))
  }

  method CalculateMatch(resume: ParsedResume, role: RoleCategory, p: RoleProfile) returns (m: RoleMatch)
    requires HasKeywords(p)
    ensures m == Match(resume, role, p)
    ensures WellFormed(p) ==> 0 <= m.score <= 100
  {
    var skills := MatchKeywords(p.skills, resume.skills, resume.text);
    var skillScore := Fraction(|skills|, |p.skills|);
    var experience := MatchKeywords(p.experience, resume.experience, resume.text);
    var experienceScore := Fraction(|experience|, |p.experience|);
    var education := MatchKeywords(p.education, resume.education, resume.text);
    var educationScore := Fraction(|education|, |p.education|);
    var certifications := MatchKeywords(p.certifications, resume.certifications, resume.text);
    var certScore := Fraction(|certifications|, |p.certifications|);
    var score := AtMost100((Scaled(skillScore, p.weights.skills) + Scaled(experienceScore, p.weights.experience)
      + Scaled(educationScore, p.weights.education) + Scaled(certScore, p.weights.certifications)) * 100.0);
    var counts := Counts(|skills|, |experience|, |education|, |certifications|);
    var reasoning := GenerateReasoning(role, score, counts);
    m := RoleMatch(role, Round(score), skills, experience, education, certifications, reasoning);
    if WellFormed(p) {
      ScoreBounds(resume, role, p);
    }
  }

  /**
   * For a well-formed profile the cap at 100 never applies, the unrounded score lies
   * in [0, 100], and so does the returned score, its nearest integer.
   */
  lemma ScoreBounds(resume: ParsedResume, role: RoleCategory, p: RoleProfile)
    requires WellFormed(p)
    ensures UnroundedScore(resume, p) == Weighted(p, MatchCounts(resume, p)) * 100.0
    ensures 0.0 <= UnroundedScore(resume, p) <= 100.0
    ensures 0 <= Match(resume, role, p).score <= 100
  {
    RawScoreBounds(p, MatchCounts(resume, p));
  }

  /**
   * Each matched list is the subsequence of the profile's list for its dimension
   * holding exactly the keywords found in the section lines or the text.
   */
  lemma MatchedListsAreFoundKeywords(resume: ParsedResume, role: RoleCategory, p: RoleProfile)
    requires HasKeywords(p)
    ensures var m := Match(resume, role, p);
      && IsSubsequence(m.matchedSkills, p.skills)
      && IsSubsequence(m.matchedExperience, p.experience)
      && IsSubsequence(m.matchedEducation, p.education)
      && IsSubsequence(m.matchedCertifications, p.certifications)
      && (forall k :: k in m.matchedSkills <==> k in p.skills && Found(k, resume.skills, resume.text))
      && (forall k :: k in m.matchedExperience <==> k in p.experience && Found(k, resume.experience, resume.text))
      && (forall k :: k in m.matchedEducation <==> k in p.education && Found(k, resume.education, resume.text))
      && (forall k :: k in m.matchedCertifications <==>
            k in p.certifications && Found(k, resume.certifications, resume.text))
  {
    MatchedProperties(p.skills, resume.skills, resume.text);
    MatchedProperties(p.experience, resume.experience, resume.text);
    MatchedProperties(p.education, resume.education, resume.text);
    MatchedProperties(p.certifications, resume.certifications, resume.text);
  }

  /** No non-empty keyword is found in an empty resume. */
  lemma NothingFoundInEmpty(keywords: seq<string>)
    requires NonEmptyKeywords(keywords)
    ensures Matched(keywords, [], "") == []
  {
    forall k | k in keywords ensures !Found(k, [], "") {
      assert LowerAll([]) == [];
    }
    FilterNone(keywords, FoundIn([], ""));
  }

  /**
   * A resume with empty text and empty section lists matches no keyword, scores 0 and
   * gets only the "Limited alignment" sentence.
   */
  lemma EmptyResumeScoresZero(resume: ParsedResume, role: RoleCategory, p: RoleProfile)
    requires WellFormed(p)
    requires resume.text == "" && resume.skills == [] && resume.experience == []
    requires resume.education == [] && resume.certifications == []
    ensures var m := Match(resume, role, p);
      && m.matchedSkills == [] && m.matchedExperience == []
      && m.matchedEducation == [] && m.matchedCertifications == []
      && m.score == 0
      && m.reasoning == "Limited alignment with " + RoleName(role) + " requirements."
  {
    NothingFoundInEmpty(p.skills);
    NothingFoundInEmpty(p.experience);
    NothingFoundInEmpty(p.education);
    NothingFoundInEmpty(p.certifications);
    var zero := Counts(0, 0, 0, 0);
    assert MatchCounts(resume, p) == zero;
    ZeroCountsScoreZero(p);
    ReasoningShape(role, 0.0, zero);
  }

  lemma ZeroCountsScoreZero(p: RoleProfile)
    requires HasKeywords(p)
    ensures RawScore(p, Counts(0, 0, 0, 0)) == 0.0
    ensures Round(0.0) == 0
  {
    assert Fraction(0, |p.skills|) == 0.0 && Fraction(0, |p.experience|) == 0.0;
    assert Fraction(0, |p.education|) == 0.0 && Fraction(0, |p.certifications|) == 0.0;
  }

  /** A keyword found in a text is found in every text containing it. */
  lemma FoundInLongerText(k: string, lines: seq<string>, text: string, longer: string)
    requires Contains(longer, text)
    requires Found(k, lines, text)
    ensures Found(k, lines, longer)
  {
    if Contains(Lower(text), Lower(k)) {
      ContainsLower(longer, text);
      ContainsTransitive(Lower(longer), Lower(text), Lower(k));
    }
  }

  lemma MatchedGrows(keywords: seq<string>, lines: seq<string>, text: string, longer: string)
    requires Contains(longer, text)
    ensures IsSubsequence(Matched(keywords, lines, text), Matched(keywords, lines, longer))
    ensures |Matched(keywords, lines, text)| <= |Matched(keywords, lines, longer)|
  {
    forall k | k in keywords && Found(k, lines, text) ensures Found(k, lines, longer) {
      FoundInLongerText(k, lines, text, longer);
    }
    FilterMonotone(keywords, FoundIn(lines, text), FoundIn(lines, longer));
  }

  /**
   * Monotonicity: when the text is extended (the old text occurs in the new one) and the
   * section lists stay the same, no keyword is lost from any matched list and the
   * score does not decrease.
   */
  lemma ScoreMonotoneInText(resume: ParsedResume, extended: ParsedResume, role: RoleCategory, p: RoleProfile)
    requires WellFormed(p)
    requires Contains(extended.text, resume.text)
    requires extended.skills == resume.skills && extended.experience == resume.experience
    requires extended.education == resume.education && extended.certifications == resume.certifications
    ensures var m1, m2 := Match(resume, role, p), Match(extended, role, p);
      && IsSubsequence(m1.matchedSkills, m2.matchedSkills)
      && IsSubsequence(m1.matchedExperience, m2.matchedExperience)
      && IsSubsequence(m1.matchedEducation, m2.matchedEducation)
      && IsSubsequence(m1.matchedCertifications, m2.matchedCertifications)
      && m1.score <= m2.score
  {
    MatchedGrows(p.skills, resume.skills, resume.text, extended.text);
    MatchedGrows(p.experience, resume.experience, resume.text, extended.text);
    MatchedGrows(p.education, resume.education, resume.text, extended.text);
    MatchedGrows(p.certifications, resume.certifications, resume.text, extended.text);
    var c1, c2 := MatchCounts(resume, p), MatchCounts(extended, p);
    WeightedMonotone(p, c1, c2);
    RawScoreBounds(p, c1);
    RawScoreBounds(p, c2);
    RoundMonotone(RawScore(p, c1), RawScore(p, c2));
  }

  /**
   * The Medical Assistants skills list names "ekg" twice, so a resume mentioning it has
   * it matched twice, out of a total in which it is also counted twice.
   */
  lemma DuplicateKeywordCountsTwice(lines: seq<string>, text: string)
    requires Found("ekg", lines, text)
    ensures multiset(Matched(MedicalAssistantsSkills, lines, text))["ekg"]
            == multiset(MedicalAssistantsSkills)["ekg"] >= 2
  {
    EkgListedTwice();
    FilterMultiplicity(MedicalAssistantsSkills, FoundIn(lines, text), "ekg");
  }

  lemma EkgListedTwice()
    ensures MedicalAssistantsSkills[8] == "ekg" && MedicalAssistantsSkills[9] == "ekg"
    ensures multiset(MedicalAssistantsSkills)["ekg"] >= 2
  {
    TwoIndicesCountTwice(MedicalAssistantsSkills, 8, 9);
  }

  /** The band follows the unrounded score, so a displayed 80 can come with the 60-79 sentence. */
  lemma BandUsesUnroundedScore(x: real)
    requires 79.5 <= x < 80.0
    ensures Round(x) == 80 && BandOf(x) == Strong
  {
  }

  // ---------------------------------------------------------------------------
  // All roles

  function ScoreKey(): RoleMatch -> int
  {
    (m: RoleMatch) => m.score
  }

  /** The match of a resume against a role of the registry, scored with that role's profile. */
  function RoleMatchOf(resume: ParsedResume, role: RoleCategory): (m: RoleMatch)
    ensures m.role == role
  {
    ProfileWellFormed(role);
    Match(resume, role, Profile(role))
  }

  lemma RoleMatchOfIsMatch(resume: ParsedResume, role: RoleCategory)
    ensures HasKeywords(Profile(role)) && RoleMatchOf(resume, role) == Match(resume, role, Profile(role))
  {
    ProfileWellFormed(role);
  }

  /** One match per role, in registry order, before sorting. */
  function UnsortedMatches(resume: ParsedResume): (ms: seq<RoleMatch>)
    ensures |ms| == |AllRoles|
    ensures forall i :: 0 <= i < |AllRoles| ==> ms[i] == RoleMatchOf(resume, AllRoles[i])
  {
    seq(|AllRoles|, i requires 0 <= i < |AllRoles| => RoleMatchOf(resume, AllRoles[i]))
  }

  /** `matchResumeToRoles`: the matches of all roles, stably sorted by descending score. */
  function RankedMatches(resume: ParsedResume): seq<RoleMatch>
  {
    StableSortDesc(UnsortedMatches(resume), ScoreKey())
  }

  /** One match per role of the registry, in registry order. */
  ghost predicate InRegistryOrder(ms: seq<RoleMatch>)
  {
    |ms| == |AllRoles| && forall i :: 0 <= i < |ms| ==> ms[i].role == AllRoles[i]
  }

  /**
   * Sorting matches that are in registry order gives one entry per role and no role twice,
   * each entry being the one listed for its role, with descending scores and equal scores
   * in registry order.
   */
  lemma RankingProperties(unsorted: seq<RoleMatch>)
    requires InRegistryOrder(unsorted)
    ensures var ranked := StableSortDesc(unsorted, ScoreKey());
      && |ranked| == 4
      && (forall r: RoleCategory :: unsorted[RoleIndex(r)] in ranked)
      && (forall i | 0 <= i < |ranked| :: ranked[i] == unsorted[RoleIndex(ranked[i].role)])
      && (forall i, j | 0 <= i < j < |ranked| :: ranked[i].role != ranked[j].role)
      && (forall i, j | 0 <= i < j < |ranked| :: ranked[i].score >= ranked[j].score)
      && (forall i, j | 0 <= i < j < |ranked| && ranked[i].score == ranked[j].score ::
            RoleIndex(ranked[i].role) < RoleIndex(ranked[j].role))
  {
    var ranked := StableSortDesc(unsorted, ScoreKey());
    SortIsSorted(unsorted, ScoreKey());
    RankingCoversRegistry(unsorted, ranked);
    RankingEntriesAreListed(unsorted, ranked);
    RankingTiesInRegistryOrder(unsorted, ranked);
  }

  /** The ranking has four entries and the listed match of every role. */
  lemma RankingCoversRegistry(unsorted: seq<RoleMatch>, ranked: seq<RoleMatch>)
    requires InRegistryOrder(unsorted) && ranked == StableSortDesc(unsorted, ScoreKey())
    ensures |ranked| == 4
    ensures forall r: RoleCategory :: unsorted[RoleIndex(r)] in ranked
  {
    SortIsPermutation(unsorted, ScoreKey());
    assert |ranked| == |multiset(ranked)| == |multiset(unsorted)| == |unsorted|;
    forall r: RoleCategory ensures unsorted[RoleIndex(r)] in ranked {
      assert unsorted[RoleIndex(r)] in multiset(unsorted);
    }
  }

  /** Each entry of the ranking is the listed match of its own role. */
  lemma RankingEntriesAreListed(unsorted: seq<RoleMatch>, ranked: seq<RoleMatch>)
    requires InRegistryOrder(unsorted) && ranked == StableSortDesc(unsorted, ScoreKey())
    ensures forall i | 0 <= i < |ranked| :: ranked[i] == unsorted[RoleIndex(ranked[i].role)]
  {
    SortIsPermutation(unsorted, ScoreKey());
    forall i | 0 <= i < |ranked| ensures ranked[i] == unsorted[RoleIndex(ranked[i].role)] {
      assert ranked[i] in multiset(unsorted);
      var k :| 0 <= k < |unsorted| && unsorted[k] == ranked[i];
      RegistryIndexOf(k);
    }
  }

  /** Entries of equal score keep the registry order. */
  lemma RankingTiesInRegistryOrder(unsorted: seq<RoleMatch>, ranked: seq<RoleMatch>)
    requires InRegistryOrder(unsorted) && ranked == StableSortDesc(unsorted, ScoreKey())
    ensures forall i, j | 0 <= i < j < |ranked| && ranked[i].score == ranked[j].score ::
      RoleIndex(ranked[i].role) < RoleIndex(ranked[j].role)
  {
    forall i, j | 0 <= i < j < |ranked| && ranked[i].score == ranked[j].score
      ensures RoleIndex(ranked[i].role) < RoleIndex(ranked[j].role)
    {
      SortIsStable(unsorted, ScoreKey(), i, j);
      var i', j' :| 0 <= i' < j' < |unsorted| && unsorted[i'] == ranked[i] && unsorted[j'] == ranked[j];
      RegistryIndexOf(i');
      RegistryIndexOf(j');
    }
  }

  /** The role at position `k` of the registry has index `k`. */
  lemma RegistryIndexOf(k: int)
    requires 0 <= k < |AllRoles|
    ensures RoleIndex(AllRoles[k]) == k
  {
    RegistryCoversEachRoleOnce();
  }

  /**
   * `matchResumeToRoles` returns one match per role and no role twice, each one that role's
   * match, with descending scores and equal scores in registry order.
   */
  lemma RankedMatchesProperties(resume: ParsedResume)
    ensures var ranked := RankedMatches(resume);
      && |ranked| == 4
      && (forall r: RoleCategory :: RoleMatchOf(resume, r) in ranked)
      && (forall i | 0 <= i < |ranked| :: ranked[i] == RoleMatchOf(resume, ranked[i].role))
      && (forall i, j | 0 <= i < j < |ranked| :: ranked[i].role != ranked[j].role)
      && (forall i, j | 0 <= i < j < |ranked| :: ranked[i].score >= ranked[j].score)
      && (forall i, j | 0 <= i < j < |ranked| && ranked[i].score == ranked[j].score ::
            RoleIndex(ranked[i].role) < RoleIndex(ranked[j].role))
  {
    var unsorted := UnsortedMatches(resume);
    var ranked := RankedMatches(resume);
    assert InRegistryOrder(unsorted);
    RankingProperties(unsorted);
    forall r: RoleCategory ensures unsorted[RoleIndex(r)] == RoleMatchOf(resume, r) {
      assert AllRoles[RoleIndex(r)] == r;
    }
  }

  /** `matchResumeToRoles`: the loop scores the roles in registry order, then the list is sorted in place. */
  method MatchResumeToRoles(resume: ParsedResume) returns (ranked: seq<RoleMatch>)
    ensures ranked == RankedMatches(resume)
  {
    var matches := CollectMatches(resume);
    var a := new RoleMatch[|matches|](i requires 0 <= i < |matches| => matches[i]);
    assert a[..] == matches;
    SortInPlace(a, ScoreKey());
    ranked := a[..];
  }

  /** The loop of `matchResumeToRoles`: one match per role, pushed in registry order. */
  method CollectMatches(resume: ParsedResume) returns (matches: seq<RoleMatch>)
    ensures matches == UnsortedMatches(resume)
  {
    ghost var unsorted := UnsortedMatches(resume);
    matches := [];
    for n := 0 to |AllRoles|
      invariant matches == unsorted[..n]
    {
      var m := ScoreRole(resume, AllRoles[n]);
      PrefixSnoc(unsorted, n);
      matches := matches + [m];
    }
    assert matches == unsorted;
  }

  /** One step of that loop: look up the role's keyword lists and score the resume against them. */
  method ScoreRole(resume: ParsedResume, role: RoleCategory) returns (m: RoleMatch)
    ensures m == RoleMatchOf(resume, role)
  {
    RoleMatchOfIsMatch(resume, role);
    m := CalculateMatch(resume, role, Profile(role));
  }
}
