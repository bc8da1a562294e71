/**
 * The line and keyword extractors of the resume parser, and the assembly of a parsed
 * resume from the extracted text. The regular-expression searches for the e-mail
 * address, the phone number and the named sections are inputs (`RegexFindings`).
 */
module ResumeParser {
  import opened Wrappers
  import opened Text
  import opened Seqs

  /** The record the parser produces for one resume. */
  datatype ParsedResume = ParsedResume(
    text: string,
    name: Option<string>,
    email: Option<string>,
    phone: Option<string>,
    skills: seq<string>,
    experience: seq<string>,
    education: seq<string>,
    certifications: seq<string>)

  /**
   * What the regular expressions find in a text: the first e-mail and phone matches,
   * and the captured body of each named section (absent when no section name matched
   * with a non-empty body).
   */
  datatype RegexFindings = RegexFindings(
    email: Option<string>,
    phone: Option<string>,
    skillsSection: Option<string>,
    experienceSection: Option<string>,
    educationSection: Option<string>,
    certificationsSection: Option<string>)

  /** `section || text`: an absent or empty section falls back to the whole text. */
  function SectionOr(section: Option<string>, text: string): string
  {
    if section.Some? && section.value != "" then section.value else text
  }

  const JobTitleKeywords: seq<string> :=
    [ "nurse", "assistant", "manager", "coordinator", "specialist", "technician",
      "director", "supervisor" ]

  const DegreeKeywords: seq<string> :=
    [ "bachelor", "master", "doctorate", "phd", "associate", "degree", "diploma",
      "certificate", "rn", "bsn", "msn", "np" ]

  const CertificationKeywords: seq<string> :=
    [ "certified", "license", "cpr", "bls", "acls", "nclex", "certification", "licensed" ]

  /** The fixed skill vocabulary searched for in the skills section. */
  const SkillKeywords: seq<string> :=
    [ "patient care", "medical terminology", "hipaa", "ehr", "electronic health records",
      "vitals", "phlebotomy", "injection", "medication administration", "scheduling",
      "insurance", "billing", "coding", "cpt", "icd-10",
      "nursing", "clinical", "assessment", "diagnosis", "treatment", "care plan",
      "medication management", "patient education", "discharge planning",
      "customer service", "communication", "problem solving", "multitasking",
      "phone etiquette", "data entry", "appointment scheduling", "conflict resolution",
      "microsoft office", "excel", "word", "outlook", "typing", "organization",
      "teamwork", "leadership", "time management" ]

  /** `keywords.some(k => s.includes(k))`. */
  predicate ContainsAny(s: string, keywords: seq<string>)
  {
    exists k | k in keywords :: Contains(s, k)
  }

  /** The lower-cased line contains one of the (already lower-case) keywords. */
  predicate Mentions(line: string, keywords: seq<string>)
  {
    ContainsAny(Lower(line), keywords)
  }

  function MentionsAny(keywords: seq<string>): string -> bool
  {
    line => Mentions(line, keywords)
  }

  /** The lower-cased keyword occurs in the lower-cased text. */
  function KeywordIn(text: string): string -> bool
  {
    k => Contains(Lower(text), Lower(k))
  }

  /**
   * The date test of the experience extractor. Its pattern is `\d{4}` or a month name
   * followed by `\s+\d{4}`; the second alternative itself contains four digits, so the
   * test holds exactly when four ASCII digits stand next to each other.
   */
  predicate HasFourDigits(s: string)
  {
    exists i | 0 <= i <= |s| - 4 :: IsDigit(s[i]) && IsDigit(s[i + 1]) && IsDigit(s[i + 2]) && IsDigit(s[i + 3])
  }

  predicate AllDigits(s: string)
  {
    forall i | 0 <= i < |s| :: IsDigit(s[i])
  }

  /** A separator of the phone pattern: `-`, `.` or white space. */
  predicate IsPhoneSeparator(c: char)
  {
    c == '-' || c == '.' || IsSpace(c)
  }

  /** `p` is three digits, `a` separators, three digits, `b` separators, four digits. */
  predicate PhoneLayout(p: string, a: nat, b: nat)
    requires a <= 1 && b <= 1
  {
    && |p| == 10 + a + b
    && AllDigits(p[..3])
    && (a == 1 ==> IsPhoneSeparator(p[3]))
    && AllDigits(p[3 + a..6 + a])
    && (b == 1 ==> IsPhoneSeparator(p[6 + a]))
    && AllDigits(p[6 + a + b..])
  }

  /** `p` is matched by `\d{3}[-.\s]?\d{3}[-.\s]?\d{4}` as a whole. */
  predicate PhoneShape(p: string)
  {
    PhoneLayout(p, 0, 0) || PhoneLayout(p, 1, 0) || PhoneLayout(p, 0, 1) || PhoneLayout(p, 1, 1)
  }

  /** Some run of `s` is a phone number: the pattern of the name heuristic matches. */
  predicate HasPhonePattern(s: string)
  {
    exists i, j | 0 <= i <= j <= |s| :: PhoneShape(s[i..j])
  }

  // ---------------------------------------------------------------------------
  // Keywords

  /** The keywords, in their order, whose lower-cased form occurs in the lower-cased text. */
  function KeywordsIn(text: string, keywords: seq<string>): seq<string>
  {
    Filter(keywords, KeywordIn(text))
  }

  /** The found keywords are the keywords occurring in the text, in keyword order. */
  lemma KeywordsInProperties(text: string, keywords: seq<string>)
    ensures IsSubsequence(KeywordsIn(text, keywords), keywords)
    ensures forall k :: k in KeywordsIn(text, keywords) <==> k in keywords && Contains(Lower(text), Lower(k))
  {
    FilterIsSubsequence(keywords, KeywordIn(text));
    forall k ensures k in KeywordsIn(text, keywords) <==> k in keywords && Contains(Lower(text), Lower(k)) {
      FilterMembership(keywords, KeywordIn(text), k);
    }
  }

  /** The keywords found in the text, in keyword order. */
  method ExtractKeywords(text: string, keywords: seq<string>) returns (found: seq<string>)
    ensures found == KeywordsIn(text, keywords)
    ensures IsSubsequence(found, keywords)
    ensures forall k :: k in found <==> k in keywords && Contains(Lower(text), Lower(k))
  {
    var lowerText := Lower(text);
    found := [];
    for n := 0 to |keywords|
      invariant found == Filter(keywords[..n], KeywordIn(text))
    {
      assert keywords[..n + 1] == keywords[..n] + [keywords[n]];
      FilterSnoc(keywords[..n], keywords[n], KeywordIn(text));
      if Contains(lowerText, Lower(keywords[n])) {
        found := found + [keywords[n]];
      }
    }
    assert keywords[..|keywords|] == keywords;
    KeywordsInProperties(text, keywords);
  }

  // ---------------------------------------------------------------------------
  // Lines

  /** `text.split('\n')`. */
  function Lines(text: string): seq<string>
  {
    Split(text, '\n')
  }

  /** `lines.filter(l => keywords.some(k => l.toLowerCase().includes(k)))`. */
  function LinesMentioning(lines: seq<string>, keywords: seq<string>): seq<string>
  {
    Filter(lines, MentionsAny(keywords))
  }

  /** The loop shared by the education and certification extractors. */
  method CollectMentioning(lines: seq<string>, keywords: seq<string>) returns (kept: seq<string>)
    ensures kept == LinesMentioning(lines, keywords)
  {
    kept := [];
    for n := 0 to |lines|
      invariant kept == Filter(lines[..n], MentionsAny(keywords))
    {
      assert lines[..n + 1] == lines[..n] + [lines[n]];
      FilterSnoc(lines[..n], lines[n], MentionsAny(keywords));
      if ContainsAny(Lower(lines[n]), keywords) {
        kept := kept + [lines[n]];
      }
    }
    assert lines[..|lines|] == lines;
  }

  /** The mentioning lines are the input lines with a keyword, in input order. */
  lemma LinesMentioningProperties(lines: seq<string>, keywords: seq<string>)
    ensures IsSubsequence(LinesMentioning(lines, keywords), lines)
    ensures forall l :: l in LinesMentioning(lines, keywords) <==> l in lines && Mentions(l, keywords)
  {
    FilterIsSubsequence(lines, MentionsAny(keywords));
    forall l ensures l in LinesMentioning(lines, keywords) <==> l in lines && Mentions(l, keywords) {
      FilterMembership(lines, MentionsAny(keywords), l);
    }
  }

  lemma TakeProperties<T>(s: seq<T>, n: nat)
    ensures IsSubsequence(Take(s, n), s)
    ensures forall x :: x in Take(s, n) ==> x in s
    ensures |s| < n ==> Take(s, n) == s
  {
    PrefixIsSubsequence(s, |Take(s, n)|);
    SubsequenceMembers(Take(s, n), s);
  }

  /** At most the first three lines of the text that mention a degree keyword. */
  function EducationOf(text: string): seq<string>
  {
    Take(LinesMentioning(Lines(text), DegreeKeywords), 3)
  }

  method ExtractEducation(text: string) returns (education: seq<string>)
    ensures education == EducationOf(text)
    ensures |education| <= 3
    ensures IsSubsequence(education, Lines(text))
    ensures forall l :: l in education ==> l in Lines(text) && Mentions(l, DegreeKeywords)
    ensures |education| < 3 ==>
      forall l :: l in Lines(text) && Mentions(l, DegreeKeywords) ==> l in education
  {
    var all := CollectMentioning(Lines(text), DegreeKeywords);
    education := Take(all, 3);
    LinesMentioningProperties(Lines(text), DegreeKeywords);
    TakeProperties(all, 3);
    SubsequenceTransitive(education, all, Lines(text));
  }

  /** Every line of the text that mentions a certification keyword. */
  function CertificationsOf(text: string): seq<string>
  {
    LinesMentioning(Lines(text), CertificationKeywords)
  }

  method ExtractCertifications(text: string) returns (certifications: seq<string>)
    ensures certifications == CertificationsOf(text)
    ensures IsSubsequence(certifications, Lines(text))
    ensures forall l :: l in certifications <==> l in Lines(text) && Mentions(l, CertificationKeywords)
  {
    certifications := CollectMentioning(Lines(text), CertificationKeywords);
    LinesMentioningProperties(Lines(text), CertificationKeywords);
  }

  // ---------------------------------------------------------------------------
  // Experience

  /** The line and the (up to) two lines after it, joined with single spaces. */
  function Window(lines: seq<string>, i: nat): string
    requires i < |lines|
  {
    Join(lines[i..Min(i + 3, |lines|)], " ")
  }

  /** Line `i` names a job title or a date, and its window is longer than ten characters. */
  predicate IsExperienceLine(lines: seq<string>, i: nat)
    requires i < |lines|
  {
    (Mentions(lines[i], JobTitleKeywords) || HasFourDigits(lines[i])) && |Window(lines, i)| > 10
  }

  /** The experience lines among the first `n` lines, in order and without a cap. */
  function ExperienceEntries(lines: seq<string>, n: nat): seq<string>
    requires n <= |lines|
  {
    if n == 0 then []
    else ExperienceEntries(lines, n - 1) + (if IsExperienceLine(lines, n - 1) then [lines[n - 1]] else [])
  }

  /** The first five experience lines of the text. */
  function ExperienceOf(text: string): seq<string>
  {
    Take(ExperienceEntries(Lines(text), |Lines(text)|), 5)
  }

  /** The uncapped entries are lines of the input, in line order. */
  lemma {:induction false} ExperienceEntriesInOrder(lines: seq<string>, n: nat)
    requires n <= |lines|
    ensures IsSubsequence(ExperienceEntries(lines, n), lines[..n])
  {
    if n > 0 {
      ExperienceEntriesInOrder(lines, n - 1);
      assert lines[..n] == lines[..n - 1] + [lines[n - 1]];
      if IsExperienceLine(lines, n - 1) {
        SubsequenceBothSnoc(ExperienceEntries(lines, n - 1), lines[..n - 1], lines[n - 1]);
      } else {
        assert ExperienceEntries(lines, n) == ExperienceEntries(lines, n - 1);
        SubsequenceSnoc(ExperienceEntries(lines, n - 1), lines[..n - 1], lines[n - 1]);
      }
    }
  }

  /** Every uncapped entry is a line that passes the experience test. */
  lemma {:induction false} ExperienceEntriesSound(lines: seq<string>, n: nat)
    requires n <= |lines|
    ensures forall e :: e in ExperienceEntries(lines, n) ==>
      exists i | 0 <= i < n :: lines[i] == e && IsExperienceLine(lines, i)
  {
    if n > 0 {
      ExperienceEntriesSound(lines, n - 1);
    }
  }

  /** Every line that passes the experience test is an uncapped entry. */
  lemma {:induction false} ExperienceEntriesComplete(lines: seq<string>, n: nat)
    requires n <= |lines|
    ensures forall i | 0 <= i < n && IsExperienceLine(lines, i) :: lines[i] in ExperienceEntries(lines, n)
  {
    if n > 0 {
      ExperienceEntriesComplete(lines, n - 1);
    }
  }

  /** A title or date line longer than ten characters is always an experience line. */
  lemma LongMatchingLineIsExperience(lines: seq<string>, i: nat)
    requires i < |lines|
    requires Mentions(lines[i], JobTitleKeywords) || HasFourDigits(lines[i])
    requires |lines[i]| > 10
    ensures IsExperienceLine(lines, i)
  {
    JoinStartsWithFirst(lines[i..Min(i + 3, |lines|)], " ");
  }

  method ExtractExperience(text: string) returns (experience: seq<string>)
    ensures experience == ExperienceOf(text)
    ensures |experience| <= 5
    ensures IsSubsequence(experience, Lines(text))
    ensures forall e :: e in experience ==>
      exists i | 0 <= i < |Lines(text)| :: Lines(text)[i] == e && IsExperienceLine(Lines(text), i)
    ensures |experience| < 5 ==>
      forall i | 0 <= i < |Lines(text)| && IsExperienceLine(Lines(text), i) :: Lines(text)[i] in experience
  {
    var lines := Lines(text);
    var all: seq<string> := [];
    for i := 0 to |lines|
      invariant all == ExperienceEntries(lines, i)
    {
      var line := Lower(lines[i]);
      if ContainsAny(line, JobTitleKeywords) || HasFourDigits(lines[i]) {
        var entry := Join(lines[i..Min(i + 3, |lines|)], " ");
        if |entry| > 10 {
          all := all + [lines[i]];
        }
      }
    }
    experience := Take(all, 5);
    ExperienceEntriesInOrder(lines, |lines|);
    ExperienceEntriesSound(lines, |lines|);
    ExperienceEntriesComplete(lines, |lines|);
    assert lines[..|lines|] == lines;
    TakeProperties(all, 5);
    SubsequenceTransitive(experience, all, lines);
  }

  // ---------------------------------------------------------------------------
  // Name and the assembled record

  function TrimAll(lines: seq<string>): (r: seq<string>)
    ensures |r| == |lines|
    ensures forall i :: 0 <= i < |lines| ==> r[i] == Trim(lines[i])
  {
    seq(|lines|, i requires 0 <= i < |lines| => Trim(lines[i]))
  }

  function NonEmpty(): string -> bool
  {
    l => l != ""
  }

  /** `text.split('\n').map(l => l.trim()).filter(l => l)`. */
  function ContentLines(text: string): seq<string>
  {
    Filter(TrimAll(Lines(text)), NonEmpty())
  }

  /**
   * The content lines are the non-blank lines of the text, trimmed: each is a non-empty
   * run of the text that trim leaves unchanged, and no non-blank line is dropped.
   */
  lemma ContentLinesProperties(text: string)
    ensures forall l :: l in ContentLines(text) ==> l != "" && Trim(l) == l && Contains(text, l)
    ensures forall raw :: raw in Lines(text) && Trim(raw) != "" ==> Trim(raw) in ContentLines(text)
  {
    var parts := Lines(text);
    forall l | l in ContentLines(text) ensures l != "" && Trim(l) == l && Contains(text, l) {
      ContentLineFacts(text, l);
    }
    forall raw | raw in parts && Trim(raw) != "" ensures Trim(raw) in ContentLines(text) {
      var i :| 0 <= i < |parts| && parts[i] == raw;
      assert TrimAll(parts)[i] == Trim(raw);
      FilterMembership(TrimAll(parts), NonEmpty(), Trim(raw));
    }
  }

  /** One content line: non-empty, unchanged by trim, and a run of the text. */
  lemma ContentLineFacts(text: string, l: string)
    requires l in ContentLines(text)
    ensures l != "" && Trim(l) == l && Contains(text, l)
  {
    var parts := Lines(text);
    var trimmed := TrimAll(parts);
    FilterMembership(trimmed, NonEmpty(), l);
    assert l in trimmed && l != "";
    var i :| 0 <= i < |trimmed| && trimmed[i] == l;
    var raw := parts[i];
    assert l == Trim(raw);
    TrimIdempotent(raw);
    assert Contains(raw, l);
    SplitPiecesOccur(text, '\n');
    assert raw in Split(text, '\n');
    assert Contains(text, raw);
    ContainsTransitive(text, raw, l);
  }

  /** The name heuristic: the first content line, if it is short and has no address or phone number. */
  function GuessName(lines: seq<string>): Option<string>
  {
    if |lines| > 0 && lines[0] != "" && |lines[0]| < 50 && '@' !in lines[0] && !HasPhonePattern(lines[0])
    then Some(lines[0])
    else None
  }

  /**
   * A guessed name is the first non-blank line of the text, trimmed, shorter than fifty
   * characters, without an `@` and without a phone number; when that line fails any of
   * these tests there is no name.
   */
  lemma NameProperties(text: string)
    ensures var name := GuessName(ContentLines(text));
      name.Some? ==>
        && name.value == ContentLines(text)[0]
        && 0 < |name.value| < 50
        && '@' !in name.value
        && !HasPhonePattern(name.value)
        && Trim(name.value) == name.value
        && Contains(text, name.value)
    ensures var name := GuessName(ContentLines(text));
      name.None? <==>
        ContentLines(text) == [] || |ContentLines(text)[0]| >= 50 || '@' in ContentLines(text)[0]
        || HasPhonePattern(ContentLines(text)[0])
  {
    var lines := ContentLines(text);
    if lines != [] {
      ContentLineFacts(text, lines[0]);
    }
  }

  /** `extractResumeData`: the record built from the full text and the regex findings. */
  function ExtractResumeData(text: string, found: RegexFindings): ParsedResume
  {
    ParsedResume(
      text,
      GuessName(ContentLines(text)),
      found.email,
      found.phone,
      KeywordsIn(SectionOr(found.skillsSection, text), SkillKeywords),
      ExperienceOf(SectionOr(found.experienceSection, text)),
      EducationOf(SectionOr(found.educationSection, text)),
      CertificationsOf(SectionOr(found.certificationsSection, text)))
  }

  /**
   * The assembled record keeps the text and the regex findings, its skills are the
   * vocabulary entries found in the skills section (or the whole text), and its
   * experience and education lists respect their caps of five and three lines.
   */
  lemma ExtractResumeDataProperties(text: string, found: RegexFindings)
    ensures var r := ExtractResumeData(text, found);
      && r.text == text && r.email == found.email && r.phone == found.phone
      && IsSubsequence(r.skills, SkillKeywords)
      && (forall k :: k in r.skills <==>
            k in SkillKeywords && Contains(Lower(SectionOr(found.skillsSection, text)), Lower(k)))
      && |r.experience| <= 5
      && |r.education| <= 3
      && IsSubsequence(r.certifications, Lines(SectionOr(found.certificationsSection, text)))
  {
    KeywordsInProperties(SectionOr(found.skillsSection, text), SkillKeywords);
    LinesMentioningProperties(Lines(SectionOr(found.certificationsSection, text)), CertificationKeywords);
  }

  /** A line that carries a phone number in one of its accepted spellings is never taken as a name. */
  lemma PhoneNumberLineIsNoName()
    ensures HasPhonePattern("Call 555.123.4567")
  {
    var s := "Call 555.123.4567";
    assert s[5..17] == "555.123.4567";
    assert PhoneLayout(s[5..17], 1, 1);
  }
}
