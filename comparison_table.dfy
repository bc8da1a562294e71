/**
 * The team comparison table for one selected role: one row per analysed resume, ranked by
 * the score of that resume's match for the role, highest first, a missing match counting 0.
 */
module ComparisonTable {
  import opened Wrappers
  import opened Seqs
  import opened Sorting
  import opened RoleProfiles
  import opened ResumeParser
  import opened RoleMatcher
  import opened BestCandidates

  /** A table row: the displayed name, the e-mail, the match for the role (if any) and the resume. */
  datatype Row = Row(name: string, email: Option<string>, roleMatch: Option<RoleMatch>, resume: ParsedResume)

  /** `matches.find(m => m.role === selectedRole)`, the role being given by its display name. */
  function FindNamed(ms: seq<RoleMatch>, selectedRole: string): (r: Option<RoleMatch>)
    ensures r.None? <==> forall i :: 0 <= i < |ms| ==> RoleName(ms[i].role) != selectedRole
    ensures r.Some? ==>
      && RoleName(r.value.role) == selectedRole
      && exists i :: 0 <= i < |ms| && ms[i] == r.value
           && forall j :: 0 <= j < i ==> RoleName(ms[j].role) != selectedRole
  {
    if ms == [] then None
    else if RoleName(ms[0].role) == selectedRole then Some(ms[0])
    else
      var r := FindNamed(ms[1..], selectedRole);
      if r.Some? then
        var i :| 0 <= i < |ms[1..]| && ms[1..][i] == r.value
          && forall j :: 0 <= j < i ==> RoleName(ms[1..][j].role) != selectedRole;
        assert ms[i + 1] == r.value;
        r
      else r
  }

  /** Looking a role up by its display name finds the same match as looking it up by category. */
  lemma {:induction false} FindNamedIsFindRole(ms: seq<RoleMatch>, role: RoleCategory)
    ensures FindNamed(ms, RoleName(role)) == FindRole(ms, role)
  {
    RegistryCoversEachRoleOnce();
    if ms != [] {
      FindNamedIsFindRole(ms[1..], role);
    }
  }

  /** `resume.name || 'Unknown'`: a missing or empty name shows as "Unknown". */
  function DisplayName(name: Option<string>): (r: string)
    ensures r != ""
    ensures name.Some? && name.value != "" ==> r == name.value
    ensures name.None? || name.value == "" ==> r == "Unknown"
  {
    if name.Some? && name.value != "" then name.value else "Unknown"
  }

  /** The row of one analysed resume. */
  function Project(item: AnalyzedResume, selectedRole: string): Row
  {
    Row(DisplayName(item.resume.name), item.resume.email, FindNamed(item.matches, selectedRole), item.resume)
  }

  /** The `roleMatches` projection: one row per resume, in upload order. */
  function Rows(resumes: seq<AnalyzedResume>, selectedRole: string): (rows: seq<Row>)
    ensures |rows| == |resumes|
    ensures forall i :: 0 <= i < |resumes| ==> rows[i] == Project(resumes[i], selectedRole)
  {
    seq(|resumes|, i requires 0 <= i < |resumes| => Project(resumes[i], selectedRole))
  }

  /** `match?.score || 0`: the sort key of a row. */
  function RowScore(row: Row): int
  {
    if row.roleMatch.Some? then row.roleMatch.value.score else 0
  }

  function RowKey(): Row -> int
  {
    (row: Row) => RowScore(row)
  }

  /** The ranked table: the rows stably sorted by descending score. */
  function RankedRows(resumes: seq<AnalyzedResume>, selectedRole: string): seq<Row>
  {
    StableSortDesc(Rows(resumes, selectedRole), RowKey())
  }

  /**
   * The ranked table holds exactly the projected rows, each once, with scores descending
   * and rows of equal score in upload order: for every score, the rows with that score
   * form the same sequence in the table as in the upload order.
   */
  lemma RankedRowsProperties(resumes: seq<AnalyzedResume>, selectedRole: string)
    ensures var rows := Rows(resumes, selectedRole);
      var ranked := RankedRows(resumes, selectedRole);
      && |ranked| == |resumes|
      && multiset(ranked) == multiset(rows)
      && (forall i :: 0 <= i < |ranked| ==> exists k :: 0 <= k < |resumes| && ranked[i] == Project(resumes[k], selectedRole))
      && (forall i, j :: 0 <= i < j < |ranked| ==> RowScore(ranked[i]) >= RowScore(ranked[j]))
      && (forall i, j :: 0 <= i < j < |ranked| && RowScore(ranked[i]) == RowScore(ranked[j]) ==>
            Ordered(rows, ranked[i], ranked[j]))
      && (forall v :: Filter(ranked, HasKey(RowKey(), v)) == Filter(rows, HasKey(RowKey(), v)))
  {
    var rows := Rows(resumes, selectedRole);
    var ranked := RankedRows(resumes, selectedRole);
    SortIsPermutation(rows, RowKey());
    SortIsSorted(rows, RowKey());
    forall i | 0 <= i < |ranked|
      ensures exists k :: 0 <= k < |resumes| && ranked[i] == Project(resumes[k], selectedRole)
    {
      assert ranked[i] in multiset(rows);
      var k :| 0 <= k < |rows| && rows[k] == ranked[i];
    }
    forall i, j | 0 <= i < j < |ranked| && RowScore(ranked[i]) == RowScore(ranked[j])
      ensures Ordered(rows, ranked[i], ranked[j])
    {
      SortIsStable(rows, RowKey(), i, j);
    }
    forall v ensures Filter(ranked, HasKey(RowKey(), v)) == Filter(rows, HasKey(RowKey(), v)) {
      SortKeepsKeyGroups(rows, RowKey(), v);
    }
  }

  /**
   * The ranking the comparison table shows: nothing for an empty batch, otherwise the
   * projected rows sorted in place by descending score.
   */
  method RankCandidates(resumes: seq<AnalyzedResume>, selectedRole: string) returns (table: Option<seq<Row>>)
    ensures table.None? <==> |resumes| == 0
    ensures table.Some? ==> table.value == RankedRows(resumes, selectedRole)
  {
    if |resumes| == 0 {
      return None;
    }
    var rows := Rows(resumes, selectedRole);
    var a := new Row[|rows|](i requires 0 <= i < |rows| => rows[i]);
    assert a[..] == rows;
    SortInPlace(a, RowKey());
    return Some(a[..]);
  }
}
