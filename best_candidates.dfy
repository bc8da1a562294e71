/**
 * The "best candidate by role" summary: for each role, the resume of a batch whose match
 * for that role has the highest score, the earliest one winning a tie.
 */
module BestCandidates {
  import opened Wrappers
  import opened RoleProfiles
  import opened ResumeParser
  import opened RoleMatcher

  /** One analysed resume of a batch: the parsed record and its role matches. */
  datatype AnalyzedResume = AnalyzedResume(resume: ParsedResume, matches: seq<RoleMatch>)

  /** The chosen resume, its match for the role and its position in the batch. */
  datatype BestCandidate = BestCandidate(resume: ParsedResume, roleMatch: RoleMatch, index: nat)

  /** `matches.find(m => m.role === role)`: the first match for `role`, if any. */
  function FindRole(ms: seq<RoleMatch>, role: RoleCategory): (r: Option<RoleMatch>)
    ensures r.None? <==> forall i :: 0 <= i < |ms| ==> ms[i].role != role
    ensures r.Some? ==>
      && r.value.role == role
      && exists i :: 0 <= i < |ms| && ms[i] == r.value && forall j :: 0 <= j < i ==> ms[j].role != role
  {
    if ms == [] then None
    else if ms[0].role == role then Some(ms[0])
    else
      var r := FindRole(ms[1..], role);
      if r.Some? then
        var i :| 0 <= i < |ms[1..]| && ms[1..][i] == r.value
          && forall j :: 0 <= j < i ==> ms[1..][j].role != role;
        assert ms[i + 1] == r.value;
        r
      else r
  }

  /** A resume can be chosen for `role`: it has a match for it that beats the initial -1. */
  predicate Eligible(item: AnalyzedResume, role: RoleCategory)
  {
    var m := FindRole(item.matches, role);
    m.Some? && m.value.score > -1
  }

  /** The score of a resume's match for `role`, or -1 (the initial best score) when there is none. */
  function RoleScore(item: AnalyzedResume, role: RoleCategory): (s: int)
    ensures Eligible(item, role) <==> s > -1
    ensures Eligible(item, role) ==> s == FindRole(item.matches, role).value.score
    ensures FindRole(item.matches, role).Some? ==> FindRole(item.matches, role).value.score <= s
  {
    var m := FindRole(item.matches, role);
    if m.Some? && m.value.score > -1 then m.value.score else -1
  }

  /**
   * `getBestCandidateForRole`: nothing when no resume is eligible; otherwise a valid index
   * whose resume and match are the batch's, with the match for the requested role, a score
   * at least that of every resume's match for the role, and no earlier resume reaching it.
   */
  method GetBestCandidateForRole(resumes: seq<AnalyzedResume>, role: RoleCategory)
    returns (best: Option<BestCandidate>)
    ensures best.None? <==> forall i :: 0 <= i < |resumes| ==> !Eligible(resumes[i], role)
    ensures best.Some? ==>
      var b := best.value;
      && b.index < |resumes|
      && b.resume == resumes[b.index].resume
      && Some(b.roleMatch) == FindRole(resumes[b.index].matches, role)
      && b.roleMatch.role == role
      && b.roleMatch.score == RoleScore(resumes[b.index], role)
      && (forall i :: 0 <= i < |resumes| ==> RoleScore(resumes[i], role) <= b.roleMatch.score)
      && (forall i :: 0 <= i < b.index ==> RoleScore(resumes[i], role) < b.roleMatch.score)
  {
    var bestIndex := -1;
    var bestScore := -1;
    for n := 0 to |resumes|
      invariant -1 <= bestIndex < n
      invariant bestIndex == -1 <==> forall i :: 0 <= i < n ==> !Eligible(resumes[i], role)
      invariant bestIndex == -1 ==> bestScore == -1
      invariant bestIndex != -1 ==> bestScore == RoleScore(resumes[bestIndex], role) > -1
      invariant forall i :: 0 <= i < n ==> RoleScore(resumes[i], role) <= bestScore
      invariant forall i :: 0 <= i < bestIndex ==> RoleScore(resumes[i], role) < bestScore
    {
      var m := FindRole(resumes[n].matches, role);
      assert (m.Some? && m.value.score > bestScore) <==> RoleScore(resumes[n], role) > bestScore;
      if m.Some? && m.value.score > bestScore {
        bestScore := m.value.score;
        bestIndex := n;
      }
    }
    if bestIndex == -1 {
      return None;
    }
    var m := FindRole(resumes[bestIndex].matches, role);
    return Some(BestCandidate(resumes[bestIndex].resume, m.value, bestIndex));
  }

  /** Every match of every resume has a score of at least 0. */
  ghost predicate WellScored(resumes: seq<AnalyzedResume>)
  {
    forall i, j :: 0 <= i < |resumes| && 0 <= j < |resumes[i].matches| ==>
      resumes[i].matches[j].score >= 0
  }

  /** When every score is at least 0, a resume is eligible iff it has a match for the role. */
  lemma EligibleIffMatched(resumes: seq<AnalyzedResume>, role: RoleCategory)
    requires WellScored(resumes)
    ensures forall i :: 0 <= i < |resumes| ==>
      (Eligible(resumes[i], role) <==> exists j :: 0 <= j < |resumes[i].matches| && resumes[i].matches[j].role == role)
  {
    forall i | 0 <= i < |resumes|
      ensures Eligible(resumes[i], role) <==> exists j :: 0 <= j < |resumes[i].matches| && resumes[i].matches[j].role == role
    {
      var ms := resumes[i].matches;
      var m := FindRole(ms, role);
      if m.Some? {
        var k :| 0 <= k < |ms| && ms[k] == m.value && forall j :: 0 <= j < k ==> ms[j].role != role;
        assert ms[k].score >= 0;
      }
    }
  }

  /** Every match of the role matcher scores between 0 and 100. */
  lemma RoleMatchOfScore(resume: ParsedResume, role: RoleCategory)
    ensures 0 <= RoleMatchOf(resume, role).score <= 100
  {
    ProfileWellFormed(role);
    ScoreBounds(resume, role, Profile(role));
  }

  /** A batch analysed by the role matcher, one ranking per resume. */
  ghost predicate AnalyzedByMatcher(resumes: seq<AnalyzedResume>)
  {
    forall i :: 0 <= i < |resumes| ==> resumes[i].matches == RankedMatches(resumes[i].resume)
  }

  /** Every resume analysed by the role matcher is eligible for every role. */
  lemma AnalyzedResumesAreEligible(resumes: seq<AnalyzedResume>, role: RoleCategory)
    requires AnalyzedByMatcher(resumes)
    ensures forall i :: 0 <= i < |resumes| ==> Eligible(resumes[i], role)
  {
    forall i | 0 <= i < |resumes| ensures Eligible(resumes[i], role) {
      var item := resumes[i];
      RankedMatchesProperties(item.resume);
      assert RoleMatchOf(item.resume, role) in item.matches;
      var m := FindRole(item.matches, role);
      assert m.Some?;
      assert m.value == RoleMatchOf(item.resume, role);
      RoleMatchOfScore(item.resume, role);
    }
  }
}
