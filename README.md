# Resume-Checker scoring core, modelled in Dafny

Resume-Checker reads resumes and scores each one against four healthcare and support
roles: Customer Service, Medical Assistants, NPs and RNs. This project models the
deterministic part of that pipeline and proves properties of it:

- **Resume parser.** The text is split into lines. The model then picks:
  - the candidate's name;
  - the known skill keywords;
  - experience, education and certification lines.
- **Role scorer.** A static registry gives each role four keyword lists and four weights.
  - `calculateMatch` keeps, in profile order, every keyword found in a lower-cased section line or in the lower-cased full text.
  - It weights the four found/total fractions, caps the result at 100 and rounds it.
  - `generateReasoning` builds the explanation sentence.
  - `matchResumeToRoles` scores all four roles and sorts the matches, highest first.
- **Best-candidate summary.** For a role, the batch's resume with the highest score for that role; the earliest one wins a tie.
- **Comparison table.** One row per resume, stably sorted by the score for the selected role. A missing match counts as 0.
- **Upload selection list.**
  - Only the four accepted MIME types are kept, and the list is capped at 30.
  - A file can be removed, the list cleared, or the list submitted, which empties it.

Modules, one per file:

| module | content |
|---|---|
| `Wrappers` | `Option` |
| `Text` | JavaScript string semantics: `includes`, ASCII `toLowerCase`, `split`, `join`, `trim`, rendering a decimal count |
| `Seqs` | `filter`, `slice(0, n)`, subsequences |
| `Sorting` | the stable descending sort `Array.prototype.sort` performs with a `(a, b) => key(b) - key(a)` comparator, as a function, and an in-place insertion sort on an array proved to compute it |
| `RoleProfiles` | the registry |
| `ResumeParser` | the parser |
| `Scores` | exact real arithmetic for the score |
| `RoleMatcher` | the scorer, the reasoning and the ranking |
| `BestCandidates` | the best-candidate summary |
| `ComparisonTable` | the comparison table |
| `ResumeUpload` | the upload list |

Scores are exact reals, and the registry's weights are exact fractions (0.3 is 3/10).
JavaScript's `Math.round` is modelled as `Floor(x + 1/2)`.

Where the code has a loop that pushes onto an array, the model uses a Dafny `method` with a loop. Each such method is proved to compute a specification function, and the lemmas state what that function promises. `generateReasoning` has no loop; its straight-line pushes become the method `GenerateReasoning`. The loops are:
- the keyword extractors and line collectors of the parser;
- the four matching loops of `calculateMatch`;
- the scoring loop of `matchResumeToRoles` (the method `CollectMatches`) and its in-place sort;
- the argmax loop of `getBestCandidateForRole`;
- the in-place sort of the comparison table.

The upload list is a class whose methods reassign the selected list.

## Model

| member | source | states |
|---|---|---|
| RoleProfiles.RegistryCoversEachRoleOnce | lib/roleMatcher.ts:15-148 | the registry's iteration order lists each of the four categories exactly once, and the display names of distinct categories differ |
| RoleProfiles.RoleIndex | lib/roleMatcher.ts:153 | the position of a category in the registry's iteration order, which is valid and holds that category |
| RoleProfiles.ProfileWellFormed | lib/roleMatcher.ts:27-147 | every profile has four non-empty keyword lists without empty keywords, and non-negative weights summing to 1 |
| RoleProfiles.CustomerServiceWellFormed | lib/roleMatcher.ts:27-52 | the Customer Service profile is well formed (its weights 0.3, 0.4, 0.15 and 0.15 sum to 1) |
| RoleProfiles.MedicalAssistantsWellFormed | lib/roleMatcher.ts:53-82 | the Medical Assistants profile is well formed (weights 0.35, 0.35, 0.2 and 0.1) |
| RoleProfiles.NPsWellFormed | lib/roleMatcher.ts:83-114 | the NPs profile is well formed (weights 0.3, 0.3, 0.25 and 0.15) |
| RoleProfiles.RNsWellFormed | lib/roleMatcher.ts:115-147 | the RNs profile is well formed (weights 0.3, 0.35, 0.2 and 0.15) |
| Text.Lower | lib/roleMatcher.ts:170-174 | lower-casing keeps the length and maps each character (A to Z become a to z) |
| Text.LowerAll | lib/roleMatcher.ts:171-174 | the section lines lower-cased one by one, same count |
| Text.ContainsLower | lib/roleMatcher.ts:179-180 | a containment survives lower-casing both sides |
| Text.ContainsTransitive | lib/roleMatcher.ts:179-180 | a run inside a run of a text is a run of that text |
| Text.IndexOf | lib/resumeParser.ts:110 | the first occurrence of the separator, or the end of the string when there is none |
| Text.Split | lib/resumeParser.ts:110 | `split('\n')` yields at least one piece and no piece holds the separator |
| Text.SplitJoin | lib/resumeParser.ts:110 | joining the pieces of a split with the separator gives the string back |
| Text.SplitPiecesOccur | lib/resumeParser.ts:38 | every line of a split occurs in the split text |
| Text.JoinStartsWithFirst | lib/roleMatcher.ts:273 | a join begins with its first part |
| Text.TrimStart | lib/resumeParser.ts:38 | drops exactly the leading white space |
| Text.TrimEnd | lib/resumeParser.ts:38 | drops exactly the trailing white space |
| Text.Trim | lib/resumeParser.ts:38 | `trim` gives the input between a prefix and a suffix of white space, with no white space at either end of the result, and keeps an already trimmed string |
| Text.TrimIdempotent | lib/resumeParser.ts:38 | trimming a trimmed line changes nothing |
| Text.TrimKeepsInnerSpace | lib/resumeParser.ts:38 | white space inside a line survives trimming: " a b " trims to "a b" |
| Text.TrimBounds | lib/resumeParser.ts:38 | dropping a white-space prefix and then a white-space suffix leaves the input between the two |
| Text.NatToString | lib/roleMatcher.ts:261 | a count renders as decimal digits without a leading zero |
| Text.NatToStringPrefixInjective | lib/roleMatcher.ts:261 | when a non-digit follows, the rendered count and the text after it can be read back uniquely |
| Text.DigitPrefixOf | lib/roleMatcher.ts:261 | a rendered count followed by a non-digit is a digit run of exactly the count's length |
| Text.NatToStringRoundTrip | lib/roleMatcher.ts:261 | reading the rendered digits back gives the count |
| Seqs.Take | lib/resumeParser.ts:126 | `slice(0, n)` keeps the first `min(n, length)` elements |
| Seqs.FilterIsSubsequence | lib/resumeParser.ts:135-140 | a filter keeps a subsequence, in order |
| Seqs.FilterMembership | lib/resumeParser.ts:135-140 | an element is kept iff it is in the input and passes the test |
| Seqs.FilterMultiplicity | lib/roleMatcher.ts:178-183 | a filter keeps every copy of a value that passes the test and no copy of one that fails |
| Seqs.TwoIndicesCountTwice | lib/roleMatcher.ts:56 | a value listed at two positions occurs at least twice |
| Seqs.FilterNone | lib/roleMatcher.ts:178-183 | nothing is kept when nothing passes |
| Seqs.FilterMonotone | lib/roleMatcher.ts:179-180 | a weaker test keeps a supersequence |
| Seqs.FilterOrdered | lib/roleMatcher.ts:160 | a filter keeps the relative order of the kept elements |
| Seqs.SubsequenceTransitive | lib/resumeParser.ts:142 | a subsequence of a subsequence is a subsequence |
| Sorting.SortIsPermutation | lib/roleMatcher.ts:160 | the sort rearranges its input: same elements with the same multiplicities |
| Sorting.SortIsSorted | lib/roleMatcher.ts:160 | the sort's output is in descending key order |
| Sorting.SortKeepsKeyGroups | lib/roleMatcher.ts:160 | the elements of each key keep their input order (stability) |
| Sorting.SortIsStable | components/ComparisonTable.tsx:29 | two output elements with equal keys come in the same order in the input |
| Sorting.InsertInPlace | lib/roleMatcher.ts:160 | one insertion step on the array computes the specification's insertion and leaves the rest of the array alone |
| Sorting.SortInPlace | lib/roleMatcher.ts:160 | sorting the array in place yields exactly the stable descending sort of its old contents |
| ResumeParser.KeywordsInProperties | lib/resumeParser.ts:95-106 | `extractKeywords` keeps a subsequence of the keywords, and a keyword is kept iff its lower-cased form occurs in the lower-cased text |
| ResumeParser.ExtractKeywords | lib/resumeParser.ts:95-106 | the loop computes that filter, in keyword order, with the same iff |
| ResumeParser.CollectMentioning | lib/resumeParser.ts:135-140 | the line loop keeps exactly the lines whose lower-cased form contains one of the keywords |
| ResumeParser.LinesMentioningProperties | lib/resumeParser.ts:151-156 | the kept lines are a subsequence of the lines, and a line is kept iff it mentions a keyword |
| ResumeParser.TakeProperties | lib/resumeParser.ts:142 | a cut list is a subsequence of the list, and is the whole list when shorter than the cap |
| ResumeParser.ExtractEducation | lib/resumeParser.ts:129-143 | at most 3 lines; each is an input line mentioning a degree keyword, in input order; every such line is kept when fewer than 3 are |
| ResumeParser.ExtractCertifications | lib/resumeParser.ts:145-159 | every line mentioning a certification keyword and no other line, in input order, with no cap |
| ResumeParser.ExperienceEntriesInOrder | lib/resumeParser.ts:116-124 | the experience loop keeps lines in input order |
| ResumeParser.ExperienceEntriesSound | lib/resumeParser.ts:117-121 | every kept line is an input line that names a job title or carries a date, and whose three-line window joined with spaces is longer than 10 characters |
| ResumeParser.ExperienceEntriesComplete | lib/resumeParser.ts:117-121 | every line meeting that test is kept |
| ResumeParser.LongMatchingLineIsExperience | lib/resumeParser.ts:118-120 | a matching line of more than 10 characters passes the window test by itself |
| ResumeParser.ExtractExperience | lib/resumeParser.ts:108-127 | at most 5 entries, a subsequence of the lines, each meeting the experience test; every qualifying line is kept when fewer than 5 are |
| ResumeParser.TrimAll | lib/resumeParser.ts:38 | every line trimmed, same count |
| ResumeParser.ContentLinesProperties | lib/resumeParser.ts:38 | the lines used for the name are non-empty, already trimmed and occur in the text; every line that is not blank contributes its trimmed form |
| ResumeParser.ContentLineFacts | lib/resumeParser.ts:38 | any one content line is non-empty, unchanged by trim and a run of the text |
| ResumeParser.NameProperties | lib/resumeParser.ts:49-53 | the name is set only to the first content line, and then it is shorter than 50 characters, has no '@' and has no phone pattern; it is missing exactly when there is no content line or the first fails one of these tests |
| ResumeParser.PhoneNumberLineIsNoName | lib/resumeParser.ts:51 | a line such as "Call 555.123.4567" has a phone pattern, so it is never taken as the name |
| ResumeParser.ExtractResumeDataProperties | lib/resumeParser.ts:37-81 | the record keeps the text, e-mail and phone; skills are the known skill keywords found in the skills section, or in the whole text when the section is missing or empty; at most 5 experience and 3 education lines; certifications are lines of their section |
| RoleMatcher.MatchedProperties | lib/roleMatcher.ts:177-214 | each matched list is a subsequence of the profile's list, and a keyword is matched iff some lower-cased section line or the lower-cased text contains its lower-cased form |
| RoleMatcher.MatchKeywords | lib/roleMatcher.ts:177-183 | the matching loop computes exactly that filter |
| RoleMatcher.WeightedBounds | lib/roleMatcher.ts:184-222 | for a well-formed profile, each fraction is at most 1 and the weighted sum lies in [0, 1] |
| RoleMatcher.WeightedMonotone | lib/roleMatcher.ts:217-222 | more matches in every dimension never lower the weighted sum |
| RoleMatcher.RawScoreBounds | lib/roleMatcher.ts:217-222 | the capped score equals the weighted sum times 100, lies in [0, 100], and so does its rounding |
| RoleMatcher.GenerateReasoning | lib/roleMatcher.ts:243-274 | the pushes and the join compute the reasoning function |
| RoleMatcher.ReasoningShape | lib/roleMatcher.ts:248-273 | one band sentence comes first, followed by one clause per positive count; the text starts with the band sentence, and is that sentence alone when every count is 0 |
| RoleMatcher.ExperienceClausePresence | lib/roleMatcher.ts:260-262 | an experience clause appears iff some experience keyword matched, and the count it reports is the number of experience matches |
| RoleMatcher.SkillsClausePresence | lib/roleMatcher.ts:263-265 | a skills clause appears iff some skill matched, and the count it reports is the number of skill matches |
| RoleMatcher.ExperienceClauseInjective | lib/roleMatcher.ts:261 | different counts give different experience clauses |
| RoleMatcher.SkillsClauseInjective | lib/roleMatcher.ts:264 | different counts give different skills clauses |
| RoleMatcher.ExperienceClauseStandsOut | lib/roleMatcher.ts:248-271 | an experience clause differs from the band sentence and from the other three clauses |
| RoleMatcher.SkillsClauseStandsOut | lib/roleMatcher.ts:248-271 | a skills clause differs from the band sentence and from the other three clauses |
| RoleMatcher.CertificationsClausePresence | lib/roleMatcher.ts:269-271 | the certifications clause appears iff some certification matched |
| RoleMatcher.EducationClausePresence | lib/roleMatcher.ts:266-268 | the education clause appears iff some education keyword matched |
| RoleMatcher.CalculateMatch | lib/roleMatcher.ts:165-241 | the method computes the match function; the score lies in [0, 100] for a well-formed profile |
| RoleMatcher.ScoreBounds | lib/roleMatcher.ts:217-222 | the unrounded score is the weighted sum times 100, in [0, 100]; the returned score is in [0, 100] |
| RoleMatcher.MatchedListsAreFoundKeywords | lib/roleMatcher.ts:177-214 | all four matched lists of a match are subsequences of their profile lists and hold exactly the found keywords |
| RoleMatcher.NothingFoundInEmpty | lib/roleMatcher.ts:179-180 | no non-empty keyword is found without lines and text |
| RoleMatcher.EmptyResumeScoresZero | lib/roleMatcher.ts:170-258 | an empty resume matches nothing, scores 0 and gets exactly "Limited alignment with <role> requirements." |
| RoleMatcher.ZeroCountsScoreZero | lib/roleMatcher.ts:217-222 | no matches give a score of 0 |
| RoleMatcher.FoundInLongerText | lib/roleMatcher.ts:179-180 | a keyword found in a text is found in any text containing it |
| RoleMatcher.MatchedGrows | lib/roleMatcher.ts:177-214 | a longer text containing the old one loses no matched keyword |
| RoleMatcher.ScoreMonotoneInText | lib/roleMatcher.ts:177-222 | with the same section lines and a text containing the old text, every matched list grows and the score never decreases |
| RoleMatcher.DuplicateKeywordCountsTwice | lib/roleMatcher.ts:56 | "ekg", listed twice for Medical Assistants, is matched as often as it is listed (at least twice) once found |
| RoleMatcher.EkgListedTwice | lib/roleMatcher.ts:56 | the Medical Assistants skills list "ekg" at two positions |
| RoleMatcher.BandUsesUnroundedScore | lib/roleMatcher.ts:225-234 | an unrounded score in [79.5, 80) is returned as 80 but banded "Strong candidate" |
| RoleMatcher.RoleMatchOf | lib/roleMatcher.ts:153-156 | the match computed for a role carries that role |
| RoleMatcher.UnsortedMatches | lib/roleMatcher.ts:151-157 | one match per role, in registry order |
| RoleMatcher.RankingProperties | lib/roleMatcher.ts:159-160 | sorting matches listed in registry order gives four entries, each role once, scores descending, ties in registry order |
| RoleMatcher.RankedMatchesProperties | lib/roleMatcher.ts:150-163 | `matchResumeToRoles` returns exactly four matches, each role's own and each role once, by descending score, ties in registry order |
| RoleMatcher.CollectMatches | lib/roleMatcher.ts:151-157 | the loop over the registry pushes exactly one match per role, in registry order |
| RoleMatcher.ScoreRole | lib/roleMatcher.ts:154-155 | one loop step: the role's keyword lists are looked up and scored, giving that role's match |
| RoleMatcher.MatchResumeToRoles | lib/roleMatcher.ts:150-163 | the loop and the in-place sort compute the ranking function |
| RoleMatcher.RankingCoversRegistry | lib/roleMatcher.ts:159-160 | the sorted list has four entries and holds the match of every role |
| RoleMatcher.RankingEntriesAreListed | lib/roleMatcher.ts:159-160 | every sorted entry is the match computed for its own role |
| RoleMatcher.RankingTiesInRegistryOrder | lib/roleMatcher.ts:159-160 | the stable sort keeps matches of equal score in registry order |
| BestCandidates.FindRole | components/BestCandidatesSummary.tsx:22 | the first match for the role, or none exactly when no match has the role |
| BestCandidates.RoleScore | components/BestCandidatesSummary.tsx:22-23 | the score the loop compares: the found match's score when above -1, else -1 |
| BestCandidates.GetBestCandidateForRole | components/BestCandidatesSummary.tsx:17-36 | none iff no resume has a match for the role scoring above -1; otherwise a valid index and that resume, its first match for the role, a score at least every resume's score for the role, and no earlier resume with that score |
| BestCandidates.EligibleIffMatched | components/BestCandidatesSummary.tsx:21-29 | when scores are non-negative, a resume can be chosen iff it has a match for the role |
| BestCandidates.RoleMatchOfScore | lib/roleMatcher.ts:234 | every match of the scorer scores between 0 and 100 |
| BestCandidates.AnalyzedResumesAreEligible | components/BestCandidatesSummary.tsx:21-29 | for resumes analysed by `matchResumeToRoles` every resume can be chosen, so the result is none only for an empty batch |
| ComparisonTable.FindNamed | components/ComparisonTable.tsx:19 | the first match whose role name is the selected one, or none exactly when there is none |
| ComparisonTable.FindNamedIsFindRole | components/ComparisonTable.tsx:19 | looking a role up by its name finds the same match as looking it up by category |
| ComparisonTable.DisplayName | components/ComparisonTable.tsx:21 | the name, or "Unknown" when it is missing or empty |
| ComparisonTable.Rows | components/ComparisonTable.tsx:18-26 | exactly one row per resume, in upload order |
| ComparisonTable.RankedRowsProperties | components/ComparisonTable.tsx:29 | the ranked rows are a permutation of the projected rows, by descending score (a missing match counting 0), with equal scores in upload order: for every score, the rows with that score appear in the same order as in the upload |
| ComparisonTable.RankCandidates | components/ComparisonTable.tsx:16-29 | no table for an empty batch; otherwise the in-place sort yields the ranked rows |
| ResumeUpload.ValidTypesAreTheFour | components/ResumeUpload.tsx:58-66 | a file is accepted iff its type is one of the four MIME types |
| ResumeUpload.AfterAddProperties | components/ResumeUpload.tsx:28-56 | adding keeps the list valid and at most 30 long; it leaves the list unchanged when no offered file is valid, and otherwise appends the valid files in order after the kept old ones, cut to 30 |
| ResumeUpload.CapIsRedundant | components/ResumeUpload.tsx:35-39 | cutting the valid files to 30 before appending changes nothing once the whole list is cut to 30 |
| ResumeUpload.RemoveAtProperties | components/ResumeUpload.tsx:78-80 | removal drops exactly the element at the index and keeps the others in order; an index outside the list changes nothing |
| ResumeUpload.UploadSelection.constructor | components/ResumeUpload.tsx:15 | the selection starts empty |
| ResumeUpload.UploadSelection.AddFiles | components/ResumeUpload.tsx:28-56 | the new selection is the append-and-cap of the old one |
| ResumeUpload.UploadSelection.RemoveFile | components/ResumeUpload.tsx:78-80 | the new selection is the old one without the element at the index |
| ResumeUpload.UploadSelection.ClearAll | components/ResumeUpload.tsx:82-87 | the selection becomes empty |
| ResumeUpload.UploadSelection.Submit | components/ResumeUpload.tsx:68-76 | a non-empty selection is handed over and emptied; an empty one hands over nothing and stays |
| ResumeParser.SectionOr | lib/resumeParser.ts:56-69 | the extracted section, or the whole text when it is missing or empty |
| ResumeParser.Mentions | lib/resumeParser.ts:136-137 | the lower-cased line contains one of the keywords |
| ResumeParser.HasFourDigits | lib/resumeParser.ts:114 | the date test: four consecutive decimal digits |
| ResumeParser.HasPhonePattern | lib/resumeParser.ts:51 | some run of the line has the phone shape: three digits, an optional separator, three digits, an optional separator, four digits |
| ResumeParser.KeywordsIn | lib/resumeParser.ts:95-106 | the keywords whose lower-cased form occurs in the lower-cased text, in keyword order |
| ResumeParser.Lines | lib/resumeParser.ts:110 | `text.split('\n')` |
| ResumeParser.LinesMentioning | lib/resumeParser.ts:135-140 | the lines mentioning a keyword, in order |
| ResumeParser.EducationOf | lib/resumeParser.ts:129-143 | the first three lines mentioning a degree keyword |
| ResumeParser.CertificationsOf | lib/resumeParser.ts:145-159 | all lines mentioning a certification keyword |
| ResumeParser.Window | lib/resumeParser.ts:119 | the line and the next two (fewer at the end) joined with spaces |
| ResumeParser.IsExperienceLine | lib/resumeParser.ts:117-120 | the line names a job title or carries a date, and its window is longer than 10 characters |
| ResumeParser.ExperienceEntries | lib/resumeParser.ts:116-124 | the qualifying lines among the first `n`, in order |
| ResumeParser.ExperienceOf | lib/resumeParser.ts:108-127 | the first five qualifying lines |
| ResumeParser.ContentLines | lib/resumeParser.ts:38 | the trimmed lines that are not empty |
| ResumeParser.GuessName | lib/resumeParser.ts:49-53 | the first content line when it is under 50 characters, has no '@' and no phone pattern, else none |
| ResumeParser.ExtractResumeData | lib/resumeParser.ts:37-81 | the parsed record built from the text and the regular-expression results |
| RoleMatcher.Found | lib/roleMatcher.ts:179-180 | some lower-cased section line or the lower-cased text contains the lower-cased keyword |
| RoleMatcher.Matched | lib/roleMatcher.ts:177-183 | the profile keywords found, in profile order, each listing kept |
| RoleMatcher.MatchCounts | lib/roleMatcher.ts:225-230 | the numbers of matched keywords per dimension |
| RoleMatcher.Weighted | lib/roleMatcher.ts:184-222 | the sum of each dimension's matched/total fraction times its weight |
| RoleMatcher.RawScore | lib/roleMatcher.ts:217-222 | `Math.min(100, weighted * 100)` |
| RoleMatcher.UnroundedScore | lib/roleMatcher.ts:217-225 | the capped score before rounding, on which the reasoning is based |
| RoleMatcher.BandOf | lib/roleMatcher.ts:250-258 | the band of the unrounded score: at least 80, 60, 40, or below |
| RoleMatcher.BandSentence | lib/roleMatcher.ts:250-258 | the band's sentence naming the role |
| RoleMatcher.ReasoningParts | lib/roleMatcher.ts:248-272 | the band sentence, then the experience, skills, education and certifications clauses for positive counts |
| RoleMatcher.Reasoning | lib/roleMatcher.ts:243-274 | the parts joined by single spaces |
| RoleMatcher.Match | lib/roleMatcher.ts:165-241 | the match record: the role, the rounded score, the four matched lists and the reasoning on the unrounded score |
| RoleMatcher.RankedMatches | lib/roleMatcher.ts:150-163 | the four role matches in registry order, stably sorted by descending score |
| Scores.Fraction | lib/roleMatcher.ts:184 | matched count over list length |
| Scores.AtMost100 | lib/roleMatcher.ts:217 | `Math.min(100, x)` |
| Scores.Round | lib/roleMatcher.ts:234 | `Math.round`: the integer nearest the value, halves rounding up |
| Sorting.Insert | lib/roleMatcher.ts:160 | one insertion step of the stable descending sort |
| Sorting.StableSortDesc | lib/roleMatcher.ts:160 | the stable sort by descending key |
| BestCandidates.Eligible | components/BestCandidatesSummary.tsx:22-23 | the resume has a match for the role whose score beats the initial -1 |
| ComparisonTable.Project | components/ComparisonTable.tsx:18-26 | a resume's row: display name, e-mail, its match for the selected role, the resume |
| ComparisonTable.RowScore | components/ComparisonTable.tsx:29 | the score of the row's match, or 0 when the resume has no match for the role |
| ComparisonTable.RankedRows | components/ComparisonTable.tsx:29 | the rows stably sorted by descending row score |
| ResumeUpload.IsValidFileType | components/ResumeUpload.tsx:58-66 | the file's type is one of the four accepted MIME types |
| ResumeUpload.ValidFiles | components/ResumeUpload.tsx:35 | the valid offered files, at most 30 |
| ResumeUpload.AfterAdd | components/ResumeUpload.tsx:33-41 | the old selection when no offered file is valid, otherwise the old selection and the valid files cut to 30 |
| ResumeUpload.RemoveAt | components/ResumeUpload.tsx:79 | the list without the element at the index |

## Left out

- `parseResume` is not modelled: it reads PDF, Word and text buffers through external libraries. The model starts from the extracted text.
- The e-mail and phone regular expressions and the section regular expression of `extractSection` are not modelled. Their results are inputs to `ExtractResumeData` (`RegexFindings`). A missing or empty section falls back to the whole text, as in the code.
- `extractExperience`'s date pattern is modelled as "four consecutive digits". Its second alternative (a month name followed by a year) already contains four digits, so matching it implies matching the first.
- The name test's phone pattern (three digits, an optional separator, three digits, an optional separator, four digits) is modelled exactly over the ECMAScript `\s` set.
- `toLowerCase` is modelled on ASCII letters only. Non-ASCII case mappings are not modelled.
- String lengths count Dafny characters, not UTF-16 code units.
- Scores are exact reals rather than IEEE-754 doubles. A sum such as 0.3 + 0.4 + 0.15 + 0.15 is exactly 1 here.
- RoleMatcher.CalculateMatch: requires every keyword list of the profile to be non-empty. An empty list would give a NaN score in the code. Every registry profile meets the requirement.
- `handleDrop` and `handleFileInput`: the check that the browser supplied a file list is not modelled. Both handlers are one `AddFiles`.
- Drag highlighting, resetting the file input element, and handing the batch to the caller are not modelled. `Submit` returns the batch instead.
- `app/api/analyze/route.ts`, `app/page.tsx`, `components/ResultsDisplay.tsx` and the colour helpers are not part of this model. They hold HTTP, network, React state and presentation code.
- The per-role best-candidate mapping is one `GetBestCandidateForRole` per role. Roles are independent, so one resume can be best for several roles.
- The example resume "Registered nurse with ACLS certification, 5 years ICU experience", which ranks RNs above Customer Service, is not proved as a concrete lemma. Checking it would mean evaluating every keyword list of every profile against the text, which does not fit the verifier's resource limit. The ranking properties are proved for all resumes instead.
- BestCandidates.GetBestCandidateForRole: returns none when no resume has a match for the role scoring above -1, as the code does. For resumes analysed by `matchResumeToRoles` this happens only for an empty batch (`AnalyzedResumesAreEligible`).
