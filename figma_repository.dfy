/** The Figma Repository list: 48 seeded rows, searched over all five fields. */
module FigmaRepository {
  import opened Text
  import ListView

  datatype FigmaRepositoryRow = FigmaRepositoryRow(
    projectId: string,
    projectName: string,
    description: string,
    projectLead: string,
    figmaDesign: string)

  /** Seeded row `i`. */
  function SampleRow(i: nat): FigmaRepositoryRow
  {
    FigmaRepositoryRow(
      ListView.SampleId(i), "RealState", "Project description details",
      "Arjun Rana", "figma-design-link")
  }

  /** `sampleRows`. */
  function SampleRows(): (rows: seq<FigmaRepositoryRow>)
    ensures |rows| == 48
  {
    seq(48, i requires 0 <= i < 48 => SampleRow(i))
  }

  /** The five values the search box looks at, in the order listed. */
  function SearchFields(r: FigmaRepositoryRow): seq<string>
  {
    [r.projectId, r.projectName, r.description, r.projectLead, r.figmaDesign]
  }

  /** A blank query lists all 48 seeded rows, on five pages. */
  lemma BlankQueryListsAll(query: string)
    requires IsBlank(query)
    ensures ListView.Filtered(SampleRows(), SearchFields, query) == SampleRows()
    ensures ListView.PageCount(|ListView.Filtered(SampleRows(), SearchFields, query)|) == 5
  {
    ListView.FilteredBlank(SampleRows(), SearchFields, query);
    ListView.FortyEightRows(SampleRows());
  }

  /** Opening the screen: all 48 rows under the blank query, page 1 of 5, ten rows shown. */
  method Mount() returns (screen: ListView.ListScreen<FigmaRepositoryRow>)
    ensures fresh(screen) && screen.Valid()
    ensures screen.rows == SampleRows() && screen.fields == SearchFields
    ensures screen.query == "" && screen.page == 1
    ensures screen.FilteredRows() == SampleRows()
    ensures screen.Count() == 5 && |screen.PageRows()| == 10
  {
    screen := new ListView.ListScreen(SampleRows(), SearchFields);
    ListView.FortyEightRows(SampleRows());
  }
}
