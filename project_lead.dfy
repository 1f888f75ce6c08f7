/** The Project Lead work queue: 48 seeded rows, searched over nine of their fields. */
module ProjectLead {
  import opened Text
  import ListView

  datatype ProjectLeadRow = ProjectLeadRow(
    projectId: string,
    project: string,
    sow: string,
    createdOn: string,
    deadline: string,
    status: string,
    figmaFile: string,
    pushToP5Repository: bool,
    apiRepository: string,
    awsDetails: string)

  /** Seeded row `i`. */
  function SampleRow(i: nat): ProjectLeadRow
  {
    ProjectLeadRow(
      ListView.SampleId(i), "RealState", "Project description details",
      "29/12/2023", "29/12/2023",
      if i % 3 == 0 then "Completed" else if i % 2 == 0 then "API Pending" else "Pending",
      "figma-link", true, "api-repo-link", "aws-details-link")
  }

  /** `sampleRows`. */
  function SampleRows(): (rows: seq<ProjectLeadRow>)
    ensures |rows| == 48
  {
    seq(48, i requires 0 <= i < 48 => SampleRow(i))
  }

  /** The nine values the search box looks at, in the order listed. */
  function SearchFields(r: ProjectLeadRow): seq<string>
  {
    [r.projectId, r.project, r.sow, r.createdOn, r.deadline,
     r.status, r.figmaFile, r.apiRepository, r.awsDetails]
  }

  /** Seeded statuses: "Completed" on multiples of three, otherwise "API Pending"
      on even rows and "Pending" on odd ones. */
  lemma SampleStatus(i: nat)
    requires i < 48
    ensures SampleRows()[i].status == "Completed" <==> i % 3 == 0
    ensures SampleRows()[i].status == "API Pending" <==> i % 3 != 0 && i % 2 == 0
    ensures SampleRows()[i].status == "Pending" <==> i % 3 != 0 && i % 2 == 1
  {
  }

  /** Seeded identifiers are `i + 1` written with five digits, one per row. */
  lemma SampleIds(i: nat, j: nat)
    requires i < 48 && j < 48
    ensures |SampleRows()[i].projectId| == 5 && IsDigits(SampleRows()[i].projectId)
    ensures DecimalValue(SampleRows()[i].projectId) == i + 1
    ensures SampleRows()[i].projectId == SampleRows()[j].projectId ==> i == j
  {
    ListView.SampleIdsDistinct(i, j);
    ListView.SampleIdValue(i);
  }

  /** Opening the screen: all 48 rows under the blank query, page 1 of 5, ten rows shown. */
  method Mount() returns (screen: ListView.ListScreen<ProjectLeadRow>)
    ensures fresh(screen) && screen.Valid()
    ensures screen.rows == SampleRows() && screen.fields == SearchFields
    ensures screen.query == "" && screen.page == 1
    ensures screen.FilteredRows() == SampleRows()
    ensures screen.Count() == 5 && |screen.PageRows()| == 10
  {
    screen := new ListView.ListScreen(SampleRows(), SearchFields);
    ListView.FortyEightRows(SampleRows());
  }
}
