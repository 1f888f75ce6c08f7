/** The Backend work queue: 48 seeded rows, searched over ten of their fields. */
module Backend {
  import ListView

  datatype BackendRow = BackendRow(
    projectId: string,
    project: string,
    description: string,
    projectLead: string,
    createdOn: string,
    deadline: string,
    status: string,
    figmaFile: string,
    pushToP5Repository: bool,
    apiRepository: string,
    awsDetails: string)

  /** Seeded row `i`; `aws` stands for its randomly generated `awsDetails`. */
  function SampleRow(i: nat, aws: string): BackendRow
  {
    BackendRow(
      ListView.SampleId(i), "RealState", "Project description details", "Anju Rani",
      "29/12/2023, 20:04:11", "29/12/2023, 20:04:11",
      if i % 2 == 0 then "In Process" else "Completed",
      "figma-file-link", true, "api-repo-link", aws)
  }

  /** `sampleRows`, given the 48 random `awsDetails` strings. */
  function SampleRows(aws: seq<string>): (rows: seq<BackendRow>)
    requires |aws| == 48
    ensures |rows| == 48
  {
    seq(48, i requires 0 <= i < 48 => SampleRow(i, aws[i]))
  }

  /** The ten values the search box looks at, in the order listed. */
  function SearchFields(r: BackendRow): seq<string>
  {
    [r.projectId, r.project, r.description, r.projectLead, r.createdOn,
     r.deadline, r.status, r.figmaFile, r.apiRepository, r.awsDetails]
  }

  /** Seeded rows alternate: even rows are "In Process", odd rows "Completed". */
  lemma SampleStatusAlternates(aws: seq<string>, i: nat)
    requires |aws| == 48 && i < 48
    ensures SampleRows(aws)[i].status == "Completed" <==> i % 2 == 1
    ensures SampleRows(aws)[i].status == "In Process" <==> i % 2 == 0
  {
  }

  /** Opening the screen: all 48 rows under the blank query, page 1 of 5, ten rows shown. */
  method Mount(aws: seq<string>) returns (screen: ListView.ListScreen<BackendRow>)
    requires |aws| == 48
    ensures fresh(screen) && screen.Valid()
    ensures screen.rows == SampleRows(aws) && screen.fields == SearchFields
    ensures screen.query == "" && screen.page == 1
    ensures screen.FilteredRows() == SampleRows(aws)
    ensures screen.Count() == 5 && |screen.PageRows()| == 10
  {
    screen := new ListView.ListScreen(SampleRows(aws), SearchFields);
    ListView.FortyEightRows(SampleRows(aws));
  }
}
