/** The Projects screen: client projects searched by client name and client
    id, a status badge per billing and GST status, and a CSV export of the
    listed projects. */
module Projects {
  import opened Text
  import Seqs
  import Records
  import ListView
  import Csv

  datatype Project = Project(
    id: int, clientId: string, clientName: string, clientPhone: string, clientEmail: string,
    date: string, estValue: int, confirmationBy: string, projectLead: string,
    sentToAccounting: bool, billingStatus: string, gstFilingStatus: string)

  function ProjectIdOf(p: Project): int { p.id }

  /** `{ ...projectData, id }`. */
  function WithId(p: Project, id: int): Project { p.(id := id) }

  /** The two projects the screen starts with. */
  const Seed: seq<Project> := [
    Project(1, "CL001", "Tech Solutions Ltd", "+91 9876543210", "contact@techsolutions.com",
            "2025-01-15", 150000, "Email", "Digital Solutions", true, "Completed", "Filed"),
    Project(2, "CL002", "Creative Agency", "+91 9876543211", "hello@creativeagency.com",
            "2025-01-10", 200000, "Phone", "Ravi Coordinator", false, "Pending", "Pending")]

  /** The values the search looks at: client name and client id. */
  function SearchFields(p: Project): seq<string>
  {
    [p.clientName, p.clientId]
  }

  /** A project matches when its client name or client id, lower-cased,
      includes the lower-cased term as typed. */
  predicate ProjectMatches(p: Project, term: string)
  {
    ListView.AnyFieldIncludes(SearchFields(p), Lower(term))
  }

  /** `filteredProjects`. */
  function FilteredProjects(projects: seq<Project>, term: string): seq<Project>
  {
    Seqs.Filter(projects, (p: Project) => ProjectMatches(p, term))
  }

  /** A project is listed iff it is in the list and matches; the listing keeps the list order. */
  lemma FilteredProjectsExactly(projects: seq<Project>, term: string, p: Project)
    ensures p in FilteredProjects(projects, term) <==> p in projects && ProjectMatches(p, term)
    ensures Seqs.IsSubsequence(FilteredProjects(projects, term), projects)
  {
    Seqs.FilterMembership(projects, (x: Project) => ProjectMatches(x, term), p);
    Seqs.FilterIsSubsequence(projects, (x: Project) => ProjectMatches(x, term));
  }

  /** The empty term lists every project. */
  lemma EmptyTermListsAll(projects: seq<Project>)
    ensures FilteredProjects(projects, "") == projects
  {
    forall i | 0 <= i < |projects| ensures ProjectMatches(projects[i], "") {
      ContainsEmpty(Lower(projects[i].clientName));
      assert SearchFields(projects[i])[0] == projects[i].clientName;
    }
    Seqs.FilterAll(projects, (x: Project) => ProjectMatches(x, ""));
  }

  /** The term is not trimmed: a single space hides every project whose
      client name and client id contain no space. */
  lemma SpaceTermNotTrimmed(p: Project)
    requires ' ' !in p.clientName && ' ' !in p.clientId
    ensures !ProjectMatches(p, " ")
  {
    assert Lower(" ") == " ";
    forall i | 0 <= i < |SearchFields(p)| ensures !Contains(Lower(SearchFields(p)[i]), " ") {
      NoSpaceNotContained(Lower(SearchFields(p)[i]));
    }
  }

  lemma NoSpaceNotContained(s: string)
    requires forall i :: 0 <= i < |s| ==> s[i] != ' '
    ensures !Contains(s, " ")
  {
    ContainsIff(s, " ");
    forall i ensures !OccursAt(s, " ", i) {
      if 0 <= i && i + 1 <= |s| {
        assert s[i..i + 1][0] == s[i];
      }
    }
  }

  /** `getStatusBadge`: a fixed class prefix, then the colour of the status. */
  const BadgePrefix := "px-2 py-1 text-xs rounded-full "
  const BadgeColours: map<string, string> := map[
    "Completed" := "bg-green-100 text-green-800",
    "Pending" := "bg-yellow-100 text-yellow-800",
    "Filed" := "bg-blue-100 text-blue-800",
    "In Progress" := "bg-orange-100 text-orange-800"]
  const DefaultColour := "bg-gray-100 text-gray-800"

  function StatusBadge(status: string): string
  {
    BadgePrefix + (if status in BadgeColours then BadgeColours[status] else DefaultColour)
  }

  /** Completed, Pending, Filed and In Progress get their own colours; every
      other status gets gray. */
  lemma StatusBadgeColours(status: string)
    ensures StatusBadge("Completed") == BadgePrefix + "bg-green-100 text-green-800"
    ensures StatusBadge("Pending") == BadgePrefix + "bg-yellow-100 text-yellow-800"
    ensures StatusBadge("Filed") == BadgePrefix + "bg-blue-100 text-blue-800"
    ensures StatusBadge("In Progress") == BadgePrefix + "bg-orange-100 text-orange-800"
    ensures status !in {"Completed", "Pending", "Filed", "In Progress"} ==>
      StatusBadge(status) == BadgePrefix + "bg-gray-100 text-gray-800"
  {
  }

  /** A project as the CSV export reads it: every field by its own name. */
  function ToRecord(p: Project): Csv.Record
  {
    map[
      "id" := Csv.Num(p.id), "clientId" := Csv.Str(p.clientId), "clientName" := Csv.Str(p.clientName),
      "clientPhone" := Csv.Str(p.clientPhone), "clientEmail" := Csv.Str(p.clientEmail),
      "date" := Csv.Str(p.date), "estValue" := Csv.Num(p.estValue),
      "confirmationBy" := Csv.Str(p.confirmationBy), "projectLead" := Csv.Str(p.projectLead),
      "sentToAccounting" := Csv.Bool(p.sentToAccounting), "billingStatus" := Csv.Str(p.billingStatus),
      "gstFilingStatus" := Csv.Str(p.gstFilingStatus)]
  }

  function ToRecords(ps: seq<Project>): (r: seq<Csv.Record>)
    ensures |r| == |ps| && forall i :: 0 <= i < |ps| ==> r[i] == ToRecord(ps[i])
  {
    seq(|ps|, i requires 0 <= i < |ps| => ToRecord(ps[i]))
  }

  /** The Download CSV button: the projects export of the listed projects,
      not of the whole list. */
  function ExportCsv(projects: seq<Project>, term: string, locale: int -> string): Csv.Download
  {
    Csv.DownloadProjects(ToRecords(FilteredProjects(projects, term)), locale)
  }

  /** The field each projects header reads, in header order. */
  const ExportFields: seq<string> :=
    ["clientId", "clientName", "clientPhone", "clientEmail", "date", "estValue",
     "confirmationBy", "projectLead", "sentToAccounting", "billingStatus", "gstFilingStatus"]

  /** The values a project contributes to its export line, in header order. */
  function ExportValues(p: Project): (r: seq<Csv.Value>)
    ensures |r| == |ExportFields|
  {
    [Csv.Str(p.clientId), Csv.Str(p.clientName), Csv.Str(p.clientPhone), Csv.Str(p.clientEmail),
     Csv.Str(p.date), Csv.Num(p.estValue), Csv.Str(p.confirmationBy), Csv.Str(p.projectLead),
     Csv.Bool(p.sentToAccounting), Csv.Str(p.billingStatus), Csv.Str(p.gstFilingStatus)]
  }

  /** Every cell of a projects line is the formatted value of its header's field. */
  lemma CellsByField(row: Csv.Record, locale: int -> string)
    ensures |Csv.Cells(row, Csv.ProjectsHeaders, locale)| == |ExportFields|
    ensures forall i :: 0 <= i < |ExportFields| ==>
      Csv.Cells(row, Csv.ProjectsHeaders, locale)[i] == Csv.FormatDirect(Csv.Get(row, ExportFields[i]))
  {
    Csv.ProjectsHeadersResolve();
    assert forall i :: 0 <= i < |ExportFields| ==> Csv.ProjectsColumns[i] == Csv.Direct(ExportFields[i]);
  }

  /** The record of a project holds each exported field's value. */
  lemma RecordValues(p: Project)
    ensures forall i :: 0 <= i < |ExportFields| ==> Csv.Get(ToRecord(p), ExportFields[i]) == ExportValues(p)[i]
  {
    var row := ToRecord(p);
    forall i | 0 <= i < |ExportFields|
      ensures Csv.Get(row, ExportFields[i]) == ExportValues(p)[i]
    {
      if i < 4 {
        RecordValuesFrom0(p, i);
      } else if i < 8 {
        RecordValuesFrom4(p, i);
      } else {
        RecordValuesFrom8(p, i);
      }
    }
  }

  lemma RecordValuesFrom0(p: Project, i: int)
    requires 0 <= i < 4
    ensures Csv.Get(ToRecord(p), ExportFields[i]) == ExportValues(p)[i]
  {
  }

  lemma RecordValuesFrom4(p: Project, i: int)
    requires 4 <= i < 8
    ensures Csv.Get(ToRecord(p), ExportFields[i]) == ExportValues(p)[i]
  {
  }

  lemma RecordValuesFrom8(p: Project, i: int)
    requires 8 <= i < 11
    ensures Csv.Get(ToRecord(p), ExportFields[i]) == ExportValues(p)[i]
  {
  }

  /** The export's line for one project: text quoted, the estimated value as
      digits, and Yes or No for having been sent to accounting. */
  lemma ExportLine(p: Project, locale: int -> string)
    ensures Csv.Cells(ToRecord(p), Csv.ProjectsHeaders, locale) ==
      [Csv.Quoted(p.clientId), Csv.Quoted(p.clientName), Csv.Quoted(p.clientPhone),
       Csv.Quoted(p.clientEmail), Csv.Quoted(p.date), IntToString(p.estValue),
       Csv.Quoted(p.confirmationBy), Csv.Quoted(p.projectLead),
       if p.sentToAccounting then "Yes" else "No",
       Csv.Quoted(p.billingStatus), Csv.Quoted(p.gstFilingStatus)]
  {
    ExportCells(p, locale);
    FormattedValues(p);
  }

  /** `FormatDirect` applied to each value. */
  function FormatAll(vs: seq<Csv.Value>): (r: seq<string>)
    ensures |r| == |vs| && forall i :: 0 <= i < |vs| ==> r[i] == Csv.FormatDirect(vs[i])
  {
    seq(|vs|, i requires 0 <= i < |vs| => Csv.FormatDirect(vs[i]))
  }

  /** A project's line is its export values, each formatted as a direct field. */
  lemma ExportCells(p: Project, locale: int -> string)
    ensures Csv.Cells(ToRecord(p), Csv.ProjectsHeaders, locale) == FormatAll(ExportValues(p))
  {
    CellsByField(ToRecord(p), locale);
    RecordValues(p);
  }

  /** Text values format as quoted text, the estimated value as digits, the flag as Yes or No. */
  lemma FormattedValues(p: Project)
    ensures FormatAll(ExportValues(p)) ==
      [Csv.Quoted(p.clientId), Csv.Quoted(p.clientName), Csv.Quoted(p.clientPhone),
       Csv.Quoted(p.clientEmail), Csv.Quoted(p.date), IntToString(p.estValue),
       Csv.Quoted(p.confirmationBy), Csv.Quoted(p.projectLead),
       if p.sentToAccounting then "Yes" else "No",
       Csv.Quoted(p.billingStatus), Csv.Quoted(p.gstFilingStatus)]
  {
  }

  /** The exported file is `projects_export.csv`, and when no value holds a
      line break its lines are the header row and then the line of each
      listed project, in list order. */
  lemma ExportListsFiltered(projects: seq<Project>, term: string, locale: int -> string)
    requires Csv.NoLineBreaks(ToRecords(FilteredProjects(projects, term)), Csv.ProjectsHeaders, locale)
    ensures ExportCsv(projects, term, locale).filename == "projects_export.csv"
    ensures |Seqs.Split(ExportCsv(projects, term, locale).content, '\n')| == 1 + |FilteredProjects(projects, term)|
    ensures Seqs.Split(ExportCsv(projects, term, locale).content, '\n')
         == [Csv.HeaderRow(Csv.ProjectsHeaders)] + Csv.DataLines(ToRecords(FilteredProjects(projects, term)), Csv.ProjectsHeaders, locale)
  {
    var records := ToRecords(FilteredProjects(projects, term));
    Csv.SerializeLines(records, Csv.ProjectsHeaders, locale);
    assert ExportCsv(projects, term, locale).content == Csv.Serialize(records, Csv.ProjectsHeaders, locale);
    Csv.DownloadNames();
  }

  /** The screen as first rendered. */
  method Mount() returns (screen: Records.RecordList<Project>)
    ensures fresh(screen) && screen.Valid()
    ensures screen.items == Seed && screen.searchTerm == ""
    ensures !screen.isModalOpen && screen.editing.None?
  {
    screen := new Records.RecordList(Seed, ProjectIdOf, WithId);
  }
}
