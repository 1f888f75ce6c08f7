/** The Frontend work queue: 48 seeded rows, searched over ten of their fields. */
module Frontend {
  import opened Text
  import ListView

  datatype FrontendRow = FrontendRow(
    projectId: string,
    project: string,
    description: string,
    projectLead: string,
    createdOn: string,
    deadline: string,
    status: string,
    figmaFile: string,
    pushToP5Repository: bool,
    apiRepository: string,
    awsDetails: string)

  /** The statuses the seeded rows rotate through. */
  const Statuses: seq<string> :=
    ["Completed", "API Pending", "Pending", "Not Started", "On Hold", "In Progress"]

  /** Seeded row `i`; `aws` stands for its randomly generated `awsDetails`. */
  function SampleRow(i: nat, aws: string): FrontendRow
  {
    var n := NatToString(i + 1);
    FrontendRow(
      ListView.SampleId(i), "RealState " + n, "Frontend module for RealState project " + n,
      "Lead " + n, "29/12/2023", "29/12/2023", Statuses[i % |Statuses|],
      "figma-file-link-" + n, i % 2 == 0, "api-repo-link-" + n, aws)
  }

  /** `sampleRows`, given the 48 random `awsDetails` strings. */
  function SampleRows(aws: seq<string>): (rows: seq<FrontendRow>)
    requires |aws| == 48
    ensures |rows| == 48
  {
    seq(48, i requires 0 <= i < 48 => SampleRow(i, aws[i]))
  }

  /** The ten values the search box looks at, in the order listed. */
  function SearchFields(r: FrontendRow): seq<string>
  {
    [r.projectId, r.project, r.description, r.projectLead, r.createdOn,
     r.deadline, r.status, r.figmaFile, r.apiRepository, r.awsDetails]
  }

  /** `pushToP5Repository` is never searched: flipping it changes no match. */
  lemma PushFlagNotSearched(r: FrontendRow, query: string)
    ensures ListView.Matches(SearchFields, query, r)
        <==> ListView.Matches(SearchFields, query, r.(pushToP5Repository := !r.pushToP5Repository))
  {
    assert SearchFields(r) == SearchFields(r.(pushToP5Repository := !r.pushToP5Repository));
  }

  /** The seeded statuses repeat every six rows, and the push flag alternates. */
  lemma SampleRowsRotate(aws: seq<string>, i: nat)
    requires |aws| == 48 && i + 6 < 48
    ensures SampleRows(aws)[i].status == SampleRows(aws)[i + 6].status
    ensures SampleRows(aws)[i].pushToP5Repository <==> i % 2 == 0
  {
  }

  /** Opening the screen: all 48 rows under the blank query, page 1 of 5, ten rows shown. */
  method Mount(aws: seq<string>) returns (screen: ListView.ListScreen<FrontendRow>)
    requires |aws| == 48
    ensures fresh(screen) && screen.Valid()
    ensures screen.rows == SampleRows(aws) && screen.fields == SearchFields
    ensures screen.query == "" && screen.page == 1
    ensures screen.FilteredRows() == SampleRows(aws)
    ensures screen.Count() == 5 && |screen.PageRows()| == 10
  {
    screen := new ListView.ListScreen(SampleRows(aws), SearchFields);
    ListView.FortyEightRows(SampleRows(aws));
  }
}
