/** The CSV text that `downloadCSV` builds: a header row, then one line per
    record, each cell found by normalising its header to a lookup key and
    dispatching on that key. The browser download that follows is not modelled. */
module Csv {
  import opened Text
  import Seqs
  import opened Wrappers

  /** A field value of a record, as JavaScript sees it. */
  datatype Value = Undefined | Null | Bool(b: bool) | Num(n: int) | Str(s: string)

  /** A record: field name to value; a field that is not present reads as `undefined`. */
  type Record = map<string, Value>

  function Get(row: Record, field: string): Value
  {
    if field in row then row[field] else Undefined
  }

  /** `${v}` inside a template literal. */
  function Interp(v: Value): string
  {
    match v
    case Undefined => "undefined"
    case Null => "null"
    case Bool(b) => if b then "true" else "false"
    case Num(n) => IntToString(n)
    case Str(s) => s
  }

  /** Truthiness, as a conditional `row.x ? a : b` tests it. */
  predicate Truthy(v: Value)
  {
    match v
    case Undefined => false
    case Null => false
    case Bool(b) => b
    case Num(n) => n != 0
    case Str(s) => s != ""
  }

  /** `${v?.toLocaleString()}`; `locale` is the host's formatting of numbers. */
  function LocaleText(v: Value, locale: int -> string): string
  {
    match v
    case Undefined => "undefined"
    case Null => "undefined"
    case Num(n) => locale(n)
    case _ => Interp(v)
  }

  /** `header.toLowerCase().replace(/\s+/g, '')`. */
  function LookupKey(header: string): string
  {
    RemoveWhitespace(Lower(header))
  }

  /** The ten composite templates of the `switch`. */
  datatype Template =
    | ClientInfo | Contact | ProjectDetails | Billing | GstStatus
    | ProjectRef | Team | Timeline | Technical | JobStatus

  /** The lookup key that selects each template. */
  function TemplateKey(t: Template): string
  {
    match t
    case ClientInfo => "clientinfo"
    case Contact => "contact"
    case ProjectDetails => "projectdetails"
    case Billing => "billing"
    case GstStatus => "status"
    case ProjectRef => "project"
    case Team => "team"
    case Timeline => "timeline"
    case Technical => "technical"
    case JobStatus => "jobstatus"
  }

  /** The `case` labels, tried in order: the template a key selects, if any. */
  function TemplateFor(key: string): Option<Template>
  {
    if key == "clientinfo" then Some(ClientInfo)
    else if key == "contact" then Some(Contact)
    else if key == "projectdetails" then Some(ProjectDetails)
    else if key == "billing" then Some(Billing)
    else if key == "status" then Some(GstStatus)
    else if key == "project" then Some(ProjectRef)
    else if key == "team" then Some(Team)
    else if key == "timeline" then Some(Timeline)
    else if key == "technical" then Some(Technical)
    else if key == "jobstatus" then Some(JobStatus)
    else None
  }

  /** A key selects a template exactly when it is that template's key. */
  lemma TemplateForKey(key: string, t: Template)
    ensures TemplateFor(key) == Some(t) <==> TemplateKey(t) == key
  {
  }

  /** The alias table `fieldMap`: lookup key to the record's field name. */
  const FieldMap: map<string, string> := map[
    "clientid" := "clientId",
    "clientname" := "clientName",
    "clientphone" := "clientPhone",
    "clientemail" := "clientEmail",
    "estvalue" := "estValue",
    "confirmationby" := "confirmationBy",
    "projectlead" := "projectLead",
    "senttoaccounting" := "sentToAccounting",
    "billingstatus" := "billingStatus",
    "gstfilingstatus" := "gstFilingStatus",
    "projectid" := "projectId",
    "projectvalue" := "projectValue",
    "createdon" := "createdOn",
    "awsdetails" := "awsDetails",
    "figmafile" := "figmaFile",
    "holdreassign" := "holdReassign",
    "employeeid" := "employeeId"
  ]

  /** How a column's cells are made: from a composite template, or by reading one field. */
  datatype Column = Composite(template: Template) | Direct(field: string)

  /** The `switch (key)`: a composite key selects its template, any other key
      is looked up in the alias table, and a key without an alias is itself
      the field name (`fieldMap[key] || key`). */
  function Resolve(header: string): Column
  {
    var key := LookupKey(header);
    match TemplateFor(key)
    case Some(t) => Composite(t)
    case None => if key in FieldMap then Direct(FieldMap[key]) else Direct(key)
  }

  function Quoted(s: string): string
  {
    "\"" + s + "\""
  }

  /** Formatting of a direct field: booleans as Yes/No and numbers as digits,
      both unquoted; `undefined` and `null` as an empty cell; anything else
      between double quotes, with no escaping. */
  function FormatDirect(v: Value): string
  {
    match v
    case Bool(b) => if b then "Yes" else "No"
    case Num(n) => IntToString(n)
    case Undefined => ""
    case Null => ""
    case Str(s) => Quoted(s)
  }

  /** The prefix the 'projectdetails' template is written with: the three
      characters that the UTF-8 bytes of the rupee sign become when read as
      Windows-1252. */
  const MisencodedRupee: string := "\U{E2}\U{201A}\U{B9}"

  /** The rupee sign, as the Accounts screen writes amounts. */
  const Rupee: string := "\U{20B9}"

  /** The composite templates, with the 'projectdetails' currency prefix as a parameter. */
  function CompositeCellWith(rupee: string, t: Template, row: Record, locale: int -> string): string
  {
    match t
    case ClientInfo =>
      Quoted(Interp(Get(row, "clientName")) + " (" + Interp(Get(row, "clientId")) + ")")
    case Contact =>
      Quoted(Interp(Get(row, "clientPhone")) + " | " + Interp(Get(row, "clientEmail")))
    case ProjectDetails =>
      Quoted(rupee + LocaleText(Get(row, "estValue"), locale) + " | " + Interp(Get(row, "date"))
             + " | Lead: " + Interp(Get(row, "projectLead")))
    case Billing =>
      Quoted(Interp(Get(row, "billingStatus")) + " | A/c: "
             + (if Truthy(Get(row, "sentToAccounting")) then "Sent" else "Pending"))
    case GstStatus =>
      Quoted("GST: " + Interp(Get(row, "gstFilingStatus")) + " | Confirmed: "
             + Interp(Get(row, "confirmationBy")))
    case ProjectRef =>
      Quoted(Interp(Get(row, "project")) + " (" + Interp(Get(row, "projectId")) + ")")
    case Team =>
      Quoted("Design: " + Interp(Get(row, "designers")) + " | Frontend: "
             + Interp(Get(row, "frontend")) + " | Backend: " + Interp(Get(row, "backend")))
    case Timeline =>
      Quoted("Created: " + Interp(Get(row, "createdOn")) + " | Deadline: "
             + Interp(Get(row, "deadline"))
             + (if Truthy(Get(row, "overdue")) then " | OVERDUE" else ""))
    case Technical =>
      Quoted("AWS: " + Interp(Get(row, "awsDetails")) + " | Figma: Available")
    case JobStatus =>
      Quoted(Interp(Get(row, "status"))
             + (if Truthy(Get(row, "holdReassign")) then " | Hold/Reassign" else ""))
  }

  /** A composite cell as the source writes it. */
  function CompositeCellAsWritten(t: Template, row: Record, locale: int -> string): string
  {
    CompositeCellWith(MisencodedRupee, t, row, locale)
  }

  /** A composite cell with the rupee sign the template evidently means. */
  function CompositeCell(t: Template, row: Record, locale: int -> string): string
  {
    CompositeCellWith(Rupee, t, row, locale)
  }

  /** The cell of one record under one header, with the 'projectdetails'
      rupee sign corrected (`CellAsWritten` is the cell as the code writes it). */
  function Cell(row: Record, header: string, locale: int -> string): string
  {
    match Resolve(header)
    case Composite(t) => CompositeCell(t, row, locale)
    case Direct(field) => FormatDirect(Get(row, field))
  }

  /** The cells of one record, one per header, in header order. */
  function Cells(row: Record, headers: seq<string>, locale: int -> string): (r: seq<string>)
    ensures |r| == |headers|
    ensures forall i :: 0 <= i < |headers| ==> r[i] == Cell(row, headers[i], locale)
  {
    seq(|headers|, i requires 0 <= i < |headers| => Cell(row, headers[i], locale))
  }

  /** `headers.map(...).join(',')` for one record. */
  function DataLine(row: Record, headers: seq<string>, locale: int -> string): string
  {
    Seqs.Join(Cells(row, headers, locale), ',')
  }

  /** `headers.join(',')`: the caller's headers, verbatim. */
  function HeaderRow(headers: seq<string>): string
  {
    Seqs.Join(headers, ',')
  }

  function DataLines(records: seq<Record>, headers: seq<string>, locale: int -> string): (r: seq<string>)
    ensures |r| == |records|
    ensures forall i :: 0 <= i < |records| ==> r[i] == DataLine(records[i], headers, locale)
  {
    seq(|records|, i requires 0 <= i < |records| => DataLine(records[i], headers, locale))
  }

  /** `csvContent` with the 'projectdetails' rupee sign corrected: the header
      row and the data lines joined by '\n', with no final newline. */
  function Serialize(records: seq<Record>, headers: seq<string>, locale: int -> string): string
  {
    Seqs.Join([HeaderRow(headers)] + DataLines(records, headers, locale), '\n')
  }

  /** No header and no cell contains a line break. */
  predicate NoLineBreaks(records: seq<Record>, headers: seq<string>, locale: int -> string)
  {
    && (forall j :: 0 <= j < |headers| ==> '\n' !in headers[j])
    && (forall i, j :: 0 <= i < |records| && 0 <= j < |headers| ==> '\n' !in Cell(records[i], headers[j], locale))
  }

  /** Reading the text back line by line gives the header row followed by
      exactly one line per record, in input order. */
  lemma SerializeLines(records: seq<Record>, headers: seq<string>, locale: int -> string)
    requires NoLineBreaks(records, headers, locale)
    ensures Seqs.Split(Serialize(records, headers, locale), '\n')
         == [HeaderRow(headers)] + DataLines(records, headers, locale)
    ensures |Seqs.Split(Serialize(records, headers, locale), '\n')| == 1 + |records|
  {
    var lines := [HeaderRow(headers)] + DataLines(records, headers, locale);
    Seqs.JoinExcludes(headers, ',', '\n');
    forall i | 0 <= i < |records|
      ensures '\n' !in DataLine(records[i], headers, locale)
    {
      Seqs.JoinExcludes(Cells(records[i], headers, locale), ',', '\n');
    }
    assert forall k :: 0 <= k < |lines| ==> '\n' !in lines[k] by {
      forall k | 0 <= k < |lines| ensures '\n' !in lines[k] {
        if k > 0 {
          assert lines[k] == DataLine(records[k - 1], headers, locale);
        }
      }
    }
    Seqs.SplitJoin(lines, '\n');
  }

  /** When no cell contains a comma, splitting a data line at the commas gives
      back exactly one cell per header, in header order. */
  lemma DataLineCells(row: Record, headers: seq<string>, locale: int -> string)
    requires |headers| >= 1
    requires forall j :: 0 <= j < |headers| ==> ',' !in Cell(row, headers[j], locale)
    ensures Seqs.Split(DataLine(row, headers, locale), ',') == Cells(row, headers, locale)
    ensures |Seqs.Split(DataLine(row, headers, locale), ',')| == |headers|
  {
    Seqs.SplitJoin(Cells(row, headers, locale), ',');
  }

  /** The header row splits back into the caller's headers, unnormalised. */
  lemma HeaderRowVerbatim(headers: seq<string>)
    requires |headers| >= 1
    requires forall j :: 0 <= j < |headers| ==> ',' !in headers[j]
    ensures Seqs.Split(HeaderRow(headers), ',') == headers
  {
    Seqs.SplitJoin(headers, ',');
  }

  /** A file handed to the browser: its name and its text. */
  datatype Download = Download(filename: string, content: string)

  /** `downloadCSV(data, filename, headers)`: the name gets the `.csv` extension. */
  function DownloadCsv(records: seq<Record>, filename: string, headers: seq<string>, locale: int -> string): Download
  {
    Download(filename + ".csv", Serialize(records, headers, locale))
  }

  /** `downloadProjectsCSV`. */
  function DownloadProjects(projects: seq<Record>, locale: int -> string): Download
  {
    DownloadCsv(projects, "projects_export", ProjectsHeaders, locale)
  }

  /** The two exports are saved as `projects_export.csv` and `jobs_export.csv`. */
  lemma DownloadNames()
    ensures forall r, l :: DownloadProjects(r, l).filename == "projects_export.csv"
    ensures forall r, l :: DownloadJobs(r, l).filename == "jobs_export.csv"
  {
    assert "projects_export" + ".csv" == "projects_export.csv";
    assert "jobs_export" + ".csv" == "jobs_export.csv";
  }

  /** `downloadJobsCSV`. */
  function DownloadJobs(jobs: seq<Record>, locale: int -> string): Download
  {
    DownloadCsv(jobs, "jobs_export", JobsHeaders, locale)
  }

  /** Direct cells: a boolean is Yes or No, a number is its decimal form and
      reads back as itself, an absent value is empty, and text is the value
      itself between two double quotes, inner quotes left as they are. */
  lemma FormatDirectMeaning(v: Value)
    ensures v.Bool? ==> FormatDirect(v) == (if v.b then "Yes" else "No")
    ensures v.Num? && v.n >= 0 ==> IsDigits(FormatDirect(v)) && DecimalValue(FormatDirect(v)) == v.n
    ensures v.Num? && v.n < 0 ==>
      var r := FormatDirect(v); |r| >= 2 && r[0] == '-' && IsDigits(r[1..]) && DecimalValue(r[1..]) == -v.n
    ensures v.Undefined? || v.Null? <==> FormatDirect(v) == ""
    ensures v.Str? ==>
      var r := FormatDirect(v);
      |r| == |v.s| + 2 && r[0] == '"' && r[|r| - 1] == '"' && r[1..|r| - 1] == v.s
  {
    match v
    case Num(n) =>
      FormatNumber(n);
    case Str(s) =>
      FormatText(s);
    case _ =>
  }

  /** A number's cell is its digits, after a minus sign when it is negative. */
  lemma FormatNumber(n: int)
    ensures n >= 0 ==> IsDigits(FormatDirect(Num(n))) && DecimalValue(FormatDirect(Num(n))) == n
    ensures n < 0 ==>
      var r := FormatDirect(Num(n)); |r| >= 2 && r[0] == '-' && IsDigits(r[1..]) && DecimalValue(r[1..]) == -n
  {
    if n >= 0 {
      DecimalRoundTrip(n);
    } else {
      DecimalRoundTrip(-n);
      assert FormatDirect(Num(n))[1..] == NatToString(-n);
    }
  }

  /** A text cell is the text between two double quotes. */
  lemma FormatText(s: string)
    ensures var r := FormatDirect(Str(s));
      |r| == |s| + 2 && r[0] == '"' && r[|r| - 1] == '"' && r[1..|r| - 1] == s
  {
    assert FormatDirect(Str(s))[1..|s| + 1] == s;
  }

  /** 'billing' ends in Sent when `sentToAccounting` is truthy and in Pending
      otherwise; nothing else in the cell depends on that field. */
  lemma BillingCell(row: Record, locale: int -> string)
    ensures var base := CompositeCell(Billing, row - {"sentToAccounting"}, locale);
      && |base| >= 8
      && CompositeCell(Billing, row, locale)
         == base[..|base| - 8] + (if Truthy(Get(row, "sentToAccounting")) then "Sent\"" else "Pending\"")
  {
    var base := CompositeCell(Billing, row - {"sentToAccounting"}, locale);
    var prefix := "\"" + Interp(Get(row, "billingStatus")) + " | A/c: ";
    assert Get(row - {"sentToAccounting"}, "billingStatus") == Get(row, "billingStatus");
    assert base == prefix + "Pending\"";
    assert base[..|base| - 8] == prefix;
  }

  /** 'timeline' gains the suffix ` | OVERDUE` exactly when `overdue` is truthy. */
  lemma TimelineCell(row: Record, locale: int -> string)
    ensures var base := CompositeCell(Timeline, row - {"overdue"}, locale);
      && |base| >= 1
      && CompositeCell(Timeline, row, locale)
         == if Truthy(Get(row, "overdue")) then base[..|base| - 1] + " | OVERDUE\"" else base
  {
    var base := CompositeCell(Timeline, row - {"overdue"}, locale);
    var mid := "Created: " + Interp(Get(row, "createdOn")) + " | Deadline: " + Interp(Get(row, "deadline"));
    assert Get(row - {"overdue"}, "createdOn") == Get(row, "createdOn");
    assert Get(row - {"overdue"}, "deadline") == Get(row, "deadline");
    assert !Truthy(Get(row - {"overdue"}, "overdue"));
    assert base == Quoted(mid + "");
    assert mid + "" == mid;
    assert base[..|base| - 1] == "\"" + mid;
    if Truthy(Get(row, "overdue")) {
      assert CompositeCell(Timeline, row, locale) == Quoted(mid + " | OVERDUE");
      assert Quoted(mid + " | OVERDUE") == ("\"" + mid) + " | OVERDUE\"";
    }
  }

  /** 'jobstatus' is the job's status, followed by ` | Hold/Reassign` exactly
      when `holdReassign` is truthy. */
  lemma JobStatusCell(row: Record, locale: int -> string)
    ensures var base := CompositeCell(JobStatus, row - {"holdReassign"}, locale);
      && base == Quoted(Interp(Get(row, "status")))
      && CompositeCell(JobStatus, row, locale)
         == if Truthy(Get(row, "holdReassign")) then Quoted(Interp(Get(row, "status")) + " | Hold/Reassign") else base
  {
    assert Get(row - {"holdReassign"}, "status") == Get(row, "status");
  }

  /** 'clientinfo' is the client's name followed by the client id in parentheses. */
  lemma ClientInfoCell(row: Record, locale: int -> string)
    ensures CompositeCell(ClientInfo, row, locale)
         == Quoted(Interp(Get(row, "clientName")) + " (" + Interp(Get(row, "clientId")) + ")")
  {
  }

  /** Under the jobs header 'Status' the composite key wins: the cell is the
      GST template over the job's GST fields, whatever the job's own `status`
      is, and reads "GST: undefined | Confirmed: undefined" for a job without
      those fields. */
  lemma JobsStatusColumn(job: Record, status: Value, locale: int -> string)
    ensures Cell(job, "Status", locale)
         == Quoted("GST: " + Interp(Get(job, "gstFilingStatus")) + " | Confirmed: " + Interp(Get(job, "confirmationBy")))
    ensures "gstFilingStatus" !in job && "confirmationBy" !in job ==>
      Cell(job, "Status", locale) == Quoted("GST: " + "undefined" + " | Confirmed: " + "undefined")
    ensures Cell(job["status" := status], "Status", locale) == Cell(job, "Status", locale)
  {
    ColumnStatus();
    var other := job["status" := status];
    CompositeColumn(job, "Status", GstStatus, locale);
    CompositeColumn(other, "Status", GstStatus, locale);
    assert Get(other, "gstFilingStatus") == Get(job, "gstFilingStatus");
    assert Get(other, "confirmationBy") == Get(job, "confirmationBy");
    assert Interp(Undefined) == "undefined";
  }

  /** Under the jobs header 'Project' the cell is the project name followed by its id. */
  lemma JobsProjectColumn(job: Record, locale: int -> string)
    ensures Cell(job, "Project", locale)
         == Quoted(Interp(Get(job, "project")) + " (" + Interp(Get(job, "projectId")) + ")")
  {
    ColumnProject();
    CompositeColumn(job, "Project", ProjectRef, locale);
  }

  /** Under a header that resolves to a template, the cell is that template's. */
  lemma CompositeColumn(row: Record, header: string, t: Template, locale: int -> string)
    requires Resolve(header) == Composite(t)
    ensures Cell(row, header, locale) == CompositeCell(t, row, locale)
  {
  }

  /** Each further record adds exactly one line at the end, after a line break;
      the text never ends with a terminator of its own. */
  lemma SerializeAppend(records: seq<Record>, r: Record, headers: seq<string>, locale: int -> string)
    ensures Serialize(records + [r], headers, locale)
         == Serialize(records, headers, locale) + "\n" + DataLine(r, headers, locale)
  {
    var lines := [HeaderRow(headers)] + DataLines(records, headers, locale);
    assert [HeaderRow(headers)] + DataLines(records + [r], headers, locale) == lines + [DataLine(r, headers, locale)];
    Seqs.JoinAppend(lines, DataLine(r, headers, locale), '\n');
  }

  /** With no records the text is the header row alone. */
  lemma SerializeNoRecords(headers: seq<string>, locale: int -> string)
    ensures Serialize([], headers, locale) == HeaderRow(headers)
  {
    assert [HeaderRow(headers)] + DataLines([], headers, locale) == [HeaderRow(headers)];
  }

  /** One project that was sent to accounting, under the one header
      'Sent to Accounting': the header line, a line break, and Yes. */
  lemma SentToAccountingExample(locale: int -> string)
    ensures Serialize([map["sentToAccounting" := Bool(true)]], ["Sent to Accounting"], locale)
         == "Sent to Accounting\nYes"
  {
    var r: Record := map["sentToAccounting" := Bool(true)];
    SentToAccountingCell(r, locale);
    assert DataLine(r, ["Sent to Accounting"], locale) == "Yes";
    assert DataLines([r], ["Sent to Accounting"], locale) == ["Yes"];
    assert Serialize([r], ["Sent to Accounting"], locale) == Seqs.Join(["Sent to Accounting", "Yes"], '\n');
  }

  lemma SentToAccountingCell(r: Record, locale: int -> string)
    requires r == map["sentToAccounting" := Bool(true)]
    ensures Cells(r, ["Sent to Accounting"], locale) == ["Yes"]
  {
    ColumnSentToAccounting();
    assert Get(r, "sentToAccounting") == Bool(true);
  }

  /** The UTF-8 encoding of a code point from U+0800 to U+FFFF: three bytes. */
  function Utf8Bytes3(cp: int): (r: seq<int>)
    requires 0x800 <= cp < 0x10000
    ensures |r| == 3 && 0xE0 <= r[0] < 0xF0
    ensures forall i :: 1 <= i < 3 ==> 0x80 <= r[i] < 0xC0
  {
    [0xE0 + cp / 0x1000, 0x80 + (cp / 0x40) % 0x40, 0x80 + cp % 0x40]
  }

  /** The code points of bytes 0x80 to 0x9F in the Windows-1252 code page;
      the five unassigned bytes map to the control character of the same value. */
  const Windows1252High: seq<int> := [
    0x20AC, 0x81, 0x201A, 0x192, 0x201E, 0x2026, 0x2020, 0x2021,
    0x2C6, 0x2030, 0x160, 0x2039, 0x152, 0x8D, 0x17D, 0x8F,
    0x90, 0x2018, 0x2019, 0x201C, 0x201D, 0x2022, 0x2013, 0x2014,
    0x2DC, 0x2122, 0x161, 0x203A, 0x153, 0x9D, 0x17E, 0x178]

  /** One byte read as Windows-1252. */
  function Windows1252(b: int): char
    requires 0 <= b < 0x100
  {
    if 0x80 <= b < 0xA0 then Windows1252High[b - 0x80] as char else b as char
  }

  /** The prefix that 'projectdetails' is written with is what the rupee sign
      becomes when its UTF-8 bytes are read as Windows-1252, so an exported
      amount starts with three stray characters instead of the rupee sign. */
  lemma ProjectDetailsAsWritten(row: Record, locale: int -> string)
    ensures Utf8Bytes3(0x20B9) == [0xE2, 0x82, 0xB9]
    ensures MisencodedRupee == [Windows1252(0xE2), Windows1252(0x82), Windows1252(0xB9)]
    ensures var c := CompositeCellAsWritten(ProjectDetails, row, locale);
      |c| >= 4 && c[1..4] == MisencodedRupee && c[1] != '\U{20B9}'
  {
    DetailsOpening(MisencodedRupee, row, locale);
  }

  /** With the rupee sign restored, the details cell opens with the sign and
      then the amount. */
  lemma ProjectDetailsCorrected(row: Record, locale: int -> string)
    ensures var c := CompositeCell(ProjectDetails, row, locale);
      var amount := LocaleText(Get(row, "estValue"), locale);
      |c| >= 2 + |amount| && c[1] == '\U{20B9}' && c[2..2 + |amount|] == amount
  {
    DetailsOpening(Rupee, row, locale);
  }

  /** After the opening quote, the details cell is the prefix and then the amount. */
  lemma DetailsOpening(rupee: string, row: Record, locale: int -> string)
    ensures var c := CompositeCellWith(rupee, ProjectDetails, row, locale);
      var amount := LocaleText(Get(row, "estValue"), locale);
      && |c| >= 1 + |rupee| + |amount|
      && c[1..1 + |rupee|] == rupee
      && c[1 + |rupee|..1 + |rupee| + |amount|] == amount
  {
    var amount := LocaleText(Get(row, "estValue"), locale);
    DetailsShape(rupee, row, locale);
    QuotedOpening(rupee, amount, DetailsTail(row));
  }

  function DetailsTail(row: Record): string
  {
    " | " + Interp(Get(row, "date")) + " | Lead: " + Interp(Get(row, "projectLead"))
  }

  lemma DetailsShape(rupee: string, row: Record, locale: int -> string)
    ensures CompositeCellWith(rupee, ProjectDetails, row, locale)
         == Quoted(rupee + LocaleText(Get(row, "estValue"), locale) + DetailsTail(row))
  {
  }

  lemma QuotedOpening(a: string, b: string, tail: string)
    ensures var c := Quoted(a + b + tail);
      |c| >= 1 + |a| + |b| && c[1..1 + |a|] == a && c[1 + |a|..1 + |a| + |b|] == b
  {
    var c := Quoted(a + b + tail);
    assert c == "\"" + a + b + (tail + "\"");
  }

  /** The currency prefix is used by the 'projectdetails' template only, so
      the correction changes no other cell. */
  lemma CorrectionOnlyTouchesProjectDetails(t: Template, row: Record, locale: int -> string)
    requires t != ProjectDetails
    ensures CompositeCell(t, row, locale) == CompositeCellAsWritten(t, row, locale)
  {
  }

  /** The cell of one record under one header as the export code writes it,
      with the misencoded prefix in the 'projectdetails' template. */
  function CellAsWritten(row: Record, header: string, locale: int -> string): string
  {
    match Resolve(header)
    case Composite(t) => CompositeCellAsWritten(t, row, locale)
    case Direct(field) => FormatDirect(Get(row, field))
  }

  /** The cells of one record as written, one per header, in header order. */
  function CellsAsWritten(row: Record, headers: seq<string>, locale: int -> string): (r: seq<string>)
    ensures |r| == |headers|
    ensures forall i :: 0 <= i < |headers| ==> r[i] == CellAsWritten(row, headers[i], locale)
  {
    seq(|headers|, i requires 0 <= i < |headers| => CellAsWritten(row, headers[i], locale))
  }

  /** `csvContent` exactly as the export code builds it. */
  function SerializeAsWritten(records: seq<Record>, headers: seq<string>, locale: int -> string): string
  {
    Seqs.Join([HeaderRow(headers)]
      + seq(|records|, i requires 0 <= i < |records| => Seqs.Join(CellsAsWritten(records[i], headers, locale), ',')), '\n')
  }

  /** No header of the list resolves to the 'projectdetails' template. */
  ghost predicate NoDetailsHeader(headers: seq<string>)
  {
    forall j :: 0 <= j < |headers| ==> Resolve(headers[j]) != Composite(ProjectDetails)
  }

  /** The written cell and the corrected cell agree under every header that
      does not resolve to 'projectdetails'; under one that does, the written
      cell carries the misencoded prefix where the corrected one has the
      rupee sign. */
  lemma CellCorrection(row: Record, header: string, locale: int -> string)
    ensures Resolve(header) != Composite(ProjectDetails) ==> CellAsWritten(row, header, locale) == Cell(row, header, locale)
    ensures Resolve(header) == Composite(ProjectDetails) ==>
      var w := CellAsWritten(row, header, locale);
      var c := Cell(row, header, locale);
      |w| >= 4 && w[1..4] == MisencodedRupee && |c| >= 2 && c[1] == '\U{20B9}'
  {
    match Resolve(header)
    case Composite(t) =>
      if t == ProjectDetails {
        ProjectDetailsAsWritten(row, locale);
        ProjectDetailsCorrected(row, locale);
      } else {
        CorrectionOnlyTouchesProjectDetails(t, row, locale);
      }
    case Direct(_) =>
  }

  /** When no header resolves to 'projectdetails', the text as written and the
      corrected text are the same. */
  lemma SerializeCorrection(records: seq<Record>, headers: seq<string>, locale: int -> string)
    ensures NoDetailsHeader(headers) ==> SerializeAsWritten(records, headers, locale) == Serialize(records, headers, locale)
  {
    if NoDetailsHeader(headers) {
      forall i | 0 <= i < |records|
        ensures CellsAsWritten(records[i], headers, locale) == Cells(records[i], headers, locale)
      {
        forall j | 0 <= j < |headers|
          ensures CellAsWritten(records[i], headers[j], locale) == Cell(records[i], headers[j], locale)
        {
          CellCorrection(records[i], headers[j], locale);
        }
      }
      assert seq(|records|, i requires 0 <= i < |records| => Seqs.Join(CellsAsWritten(records[i], headers, locale), ','))
          == DataLines(records, headers, locale);
    }
  }

  /** Neither fixed export has a 'projectdetails' column, so both are the
      same text as written and corrected. */
  lemma ExportsAsWritten(records: seq<Record>, locale: int -> string)
    ensures SerializeAsWritten(records, ProjectsHeaders, locale) == Serialize(records, ProjectsHeaders, locale)
    ensures SerializeAsWritten(records, JobsHeaders, locale) == Serialize(records, JobsHeaders, locale)
  {
    ProjectsNoDetails();
    JobsNoDetails();
    SerializeCorrection(records, ProjectsHeaders, locale);
    SerializeCorrection(records, JobsHeaders, locale);
  }

  lemma ProjectsNoDetails()
    ensures NoDetailsHeader(ProjectsHeaders)
  {
    ProjectsHeadersResolve();
    forall j | 0 <= j < |ProjectsHeaders| ensures ProjectsColumns[j] != Composite(ProjectDetails) {
      assert j == 0 || j == 1 || j == 2 || j == 3 || j == 4 || j == 5 || j == 6 || j == 7 || j == 8 || j == 9 || j == 10;
    }
  }

  lemma JobsNoDetails()
    ensures NoDetailsHeader(JobsHeaders)
  {
    JobsHeadersResolve();
    forall j | 0 <= j < |JobsHeaders| ensures JobsColumns[j] != Composite(ProjectDetails) {
      assert j == 0 || j == 1 || j == 2 || j == 3 || j == 4 || j == 5 || j == 6 || j == 7 || j == 8 || j == 9 || j == 10 || j == 11 || j == 12 || j == 13;
    }
  }

  /** A text value containing a comma is quoted but not escaped, so its line
      splits into more cells than there are headers. */
  lemma CommaInValueAddsCell(locale: int -> string)
    ensures DataLine(map["clientName" := Str("A,B")], ["Client Name"], locale) == "\"A,B\""
    ensures |Seqs.Split(DataLine(map["clientName" := Str("A,B")], ["Client Name"], locale), ',')| == 2
  {
    CommaLine(locale);
    assert "\"A" + [','] + "B\"" == "\"A,B\"";
    Seqs.SplitPiece("\"A", ',', "B\"");
    Seqs.SplitNoSeparator("B\"", ',');
  }

  /** The line of that record is its one cell: the value between double quotes. */
  lemma CommaLine(locale: int -> string)
    ensures DataLine(map["clientName" := Str("A,B")], ["Client Name"], locale) == "\"A" + [','] + "B\""
  {
    var row := map["clientName" := Str("A,B")];
    ColumnClientName();
    assert Cell(row, "Client Name", locale) == FormatDirect(Str("A,B"));
    assert Cells(row, ["Client Name"], locale) == [Quoted("A,B")];
  }

  /** The key of a one-word header is the word lowercased. */
  lemma KeyOfWord(a: string)
    requires IsLetters(a)
    ensures LookupKey(a) == Lower(a)
  {
    RemoveWhitespaceNone(Lower(a));
  }

  /** The space between two words of a header does not reach the key. */
  lemma KeyOfSpaced(a: string, b: string)
    ensures LookupKey(a + " " + b) == LookupKey(a) + LookupKey(b)
  {
    var t := " " + Lower(b);
    assert Lower(a + " " + b) == Lower(a) + t;
    RemoveWhitespaceAppend(Lower(a), t);
    assert t[0] == ' ' && t[1..] == Lower(b);
  }

  lemma ResolvesTwoWords(a: string, b: string, la: string, lb: string)
    requires IsLetters(a) && IsLetters(b) && Lower(a) == la && Lower(b) == lb
    ensures LookupKey(a + " " + b) == la + lb
  {
    KeyOfSpaced(a, b);
    KeyOfWord(a);
    KeyOfWord(b);
  }

  lemma ResolvesThreeWords(a: string, b: string, c: string, la: string, lb: string, lc: string)
    requires IsLetters(a) && IsLetters(b) && IsLetters(c)
    requires Lower(a) == la && Lower(b) == lb && Lower(c) == lc
    ensures LookupKey(a + " " + b + " " + c) == la + lb + lc
  {
    assert a + " " + b + " " + c == a + " " + (b + " " + c);
    KeyOfSpaced(a, b + " " + c);
    ResolvesTwoWords(b, c, lb, lc);
    KeyOfWord(a);
  }

  /** The header list of `downloadProjectsCSV`. */
  const ProjectsHeaders: seq<string> :=
    ["Client ID", "Client Name", "Client Phone", "Client Email", "Date", "Est Value",
     "Confirmation By", "Project Lead", "Sent to Accounting", "Billing Status", "GST Filing Status"]

  /** The column each projects header resolves to: each reads its own field. */
  const ProjectsColumns: seq<Column> :=
    [Direct("clientId"),
     Direct("clientName"),
     Direct("clientPhone"),
     Direct("clientEmail"),
     Direct("date"),
     Direct("estValue"),
     Direct("confirmationBy"),
     Direct("projectLead"),
     Direct("sentToAccounting"),
     Direct("billingStatus"),
     Direct("gstFilingStatus")]

  /** The header list of `downloadJobsCSV`. */
  const JobsHeaders: seq<string> :=
    ["Project", "Project ID", "Description", "Project Value", "Designers", "Frontend", "Backend", "Created On", "Deadline", "Overdue", "Status", "AWS Details", "Figma File", "Hold Reassign"]

  /** The column each jobs header resolves to. */
  const JobsColumns: seq<Column> :=
    [Composite(ProjectRef),
     Direct("projectId"),
     Direct("description"),
     Direct("projectValue"),
     Direct("designers"),
     Direct("frontend"),
     Direct("backend"),
     Direct("createdOn"),
     Direct("deadline"),
     Direct("overdue"),
     Composite(GstStatus),
     Direct("awsDetails"),
     Direct("figmaFile"),
     Direct("holdReassign")]

  /** Every projects header is a direct column reading the field of the same name. */
  lemma ProjectsHeadersResolve()
    ensures |ProjectsHeaders| == |ProjectsColumns| == 11
    ensures forall i :: 0 <= i < |ProjectsHeaders| ==> Resolve(ProjectsHeaders[i]) == ProjectsColumns[i]
  {
    ProjectsHeadersResolveFrom0();
    ProjectsHeadersResolveFrom4();
    ProjectsHeadersResolveFrom8();
    forall i | 0 <= i < |ProjectsHeaders|
      ensures Resolve(ProjectsHeaders[i]) == ProjectsColumns[i]
    {
      assert i == 0 || i == 1 || i == 2 || i == 3 || i == 4 || i == 5 || i == 6 || i == 7 || i == 8 || i == 9 || i == 10;
    }
  }

  lemma ProjectsHeadersResolveFrom0()
    ensures Resolve(ProjectsHeaders[0]) == ProjectsColumns[0]
    ensures Resolve(ProjectsHeaders[1]) == ProjectsColumns[1]
    ensures Resolve(ProjectsHeaders[2]) == ProjectsColumns[2]
    ensures Resolve(ProjectsHeaders[3]) == ProjectsColumns[3]
  {
    assert ProjectsHeaders[0] == "Client ID" && ProjectsColumns[0] == Direct("clientId");
    assert ProjectsHeaders[1] == "Client Name" && ProjectsColumns[1] == Direct("clientName");
    assert ProjectsHeaders[2] == "Client Phone" && ProjectsColumns[2] == Direct("clientPhone");
    assert ProjectsHeaders[3] == "Client Email" && ProjectsColumns[3] == Direct("clientEmail");
    ColumnClientId();
    ColumnClientName();
    ColumnClientPhone();
    ColumnClientEmail();
  }

  lemma ProjectsHeadersResolveFrom4()
    ensures Resolve(ProjectsHeaders[4]) == ProjectsColumns[4]
    ensures Resolve(ProjectsHeaders[5]) == ProjectsColumns[5]
    ensures Resolve(ProjectsHeaders[6]) == ProjectsColumns[6]
    ensures Resolve(ProjectsHeaders[7]) == ProjectsColumns[7]
  {
    assert ProjectsHeaders[4] == "Date" && ProjectsColumns[4] == Direct("date");
    assert ProjectsHeaders[5] == "Est Value" && ProjectsColumns[5] == Direct("estValue");
    assert ProjectsHeaders[6] == "Confirmation By" && ProjectsColumns[6] == Direct("confirmationBy");
    assert ProjectsHeaders[7] == "Project Lead" && ProjectsColumns[7] == Direct("projectLead");
    ColumnDate();
    ColumnEstValue();
    ColumnConfirmationBy();
    ColumnProjectLead();
  }

  lemma ProjectsHeadersResolveFrom8()
    ensures Resolve(ProjectsHeaders[8]) == ProjectsColumns[8]
    ensures Resolve(ProjectsHeaders[9]) == ProjectsColumns[9]
    ensures Resolve(ProjectsHeaders[10]) == ProjectsColumns[10]
  {
    assert ProjectsHeaders[8] == "Sent to Accounting" && ProjectsColumns[8] == Direct("sentToAccounting");
    assert ProjectsHeaders[9] == "Billing Status" && ProjectsColumns[9] == Direct("billingStatus");
    assert ProjectsHeaders[10] == "GST Filing Status" && ProjectsColumns[10] == Direct("gstFilingStatus");
    ColumnSentToAccounting();
    ColumnBillingStatus();
    ColumnGstFilingStatus();
  }

  lemma KeyClientId()
    ensures LookupKey("Client ID") == "clientid"
  {
    ClientIdWords();
    ResolvesTwoWords("Client", "ID", "client", "id");
    assert "client" + "id" == "clientid";
  }

  /** The two words of "Client ID", letter by letter. */
  lemma ClientIdWords()
    ensures "Client ID" == "Client" + " " + "ID"
    ensures IsLetters("Client") && Lower("Client") == "client"
    ensures IsLetters("ID") && Lower("ID") == "id"
  {
  }

  lemma ColumnClientId()
    ensures Resolve("Client ID") == Direct("clientId")
  {
    KeyClientId();
    assert TemplateFor("clientid") == None;
    assert FieldMap["clientid"] == "clientId";
  }

  lemma KeyClientName()
    ensures LookupKey("Client Name") == "clientname"
  {
    ClientNameWords();
    ResolvesTwoWords("Client", "Name", "client", "name");
    assert "client" + "name" == "clientname";
  }

  /** The two words of "Client Name", letter by letter. */
  lemma ClientNameWords()
    ensures "Client Name" == "Client" + " " + "Name"
    ensures IsLetters("Client") && Lower("Client") == "client"
    ensures IsLetters("Name") && Lower("Name") == "name"
  {
  }

  lemma ColumnClientName()
    ensures Resolve("Client Name") == Direct("clientName")
  {
    KeyClientName();
    assert TemplateFor("clientname") == None;
    assert FieldMap["clientname"] == "clientName";
  }

  lemma KeyClientPhone()
    ensures LookupKey("Client Phone") == "clientphone"
  {
    ClientPhoneWords();
    ResolvesTwoWords("Client", "Phone", "client", "phone");
    assert "client" + "phone" == "clientphone";
  }

  /** The two words of "Client Phone", letter by letter. */
  lemma ClientPhoneWords()
    ensures "Client Phone" == "Client" + " " + "Phone"
    ensures IsLetters("Client") && Lower("Client") == "client"
    ensures IsLetters("Phone") && Lower("Phone") == "phone"
  {
  }

  lemma ColumnClientPhone()
    ensures Resolve("Client Phone") == Direct("clientPhone")
  {
    KeyClientPhone();
    assert TemplateFor("clientphone") == None;
    assert FieldMap["clientphone"] == "clientPhone";
  }

  lemma KeyClientEmail()
    ensures LookupKey("Client Email") == "clientemail"
  {
    ClientEmailWords();
    ResolvesTwoWords("Client", "Email", "client", "email");
    assert "client" + "email" == "clientemail";
  }

  /** The two words of "Client Email", letter by letter. */
  lemma ClientEmailWords()
    ensures "Client Email" == "Client" + " " + "Email"
    ensures IsLetters("Client") && Lower("Client") == "client"
    ensures IsLetters("Email") && Lower("Email") == "email"
  {
  }

  lemma ColumnClientEmail()
    ensures Resolve("Client Email") == Direct("clientEmail")
  {
    KeyClientEmail();
    assert TemplateFor("clientemail") == None;
    assert FieldMap["clientemail"] == "clientEmail";
  }

  lemma KeyDate()
    ensures LookupKey("Date") == "date"
  {
    assert Lower("Date") == "date";
    KeyOfWord("Date");
  }

  lemma ColumnDate()
    ensures Resolve("Date") == Direct("date")
  {
    KeyDate();
    assert TemplateFor("date") == None;
    assert "date" !in FieldMap;
  }

  lemma KeyEstValue()
    ensures LookupKey("Est Value") == "estvalue"
  {
    EstValueWords();
    ResolvesTwoWords("Est", "Value", "est", "value");
    assert "est" + "value" == "estvalue";
  }

  /** The two words of "Est Value", letter by letter. */
  lemma EstValueWords()
    ensures "Est Value" == "Est" + " " + "Value"
    ensures IsLetters("Est") && Lower("Est") == "est"
    ensures IsLetters("Value") && Lower("Value") == "value"
  {
  }

  lemma ColumnEstValue()
    ensures Resolve("Est Value") == Direct("estValue")
  {
    KeyEstValue();
    assert TemplateFor("estvalue") == None;
    assert FieldMap["estvalue"] == "estValue";
  }

  lemma KeyConfirmationBy()
    ensures LookupKey("Confirmation By") == "confirmationby"
  {
    ConfirmationByWords();
    ResolvesTwoWords("Confirmation", "By", "confirmation", "by");
    assert "confirmation" + "by" == "confirmationby";
  }

  /** The two words of "Confirmation By", letter by letter. */
  lemma ConfirmationByWords()
    ensures "Confirmation By" == "Confirmation" + " " + "By"
    ensures IsLetters("Confirmation") && Lower("Confirmation") == "confirmation"
    ensures IsLetters("By") && Lower("By") == "by"
  {
  }

  lemma ColumnConfirmationBy()
    ensures Resolve("Confirmation By") == Direct("confirmationBy")
  {
    KeyConfirmationBy();
    assert TemplateFor("confirmationby") == None;
    assert FieldMap["confirmationby"] == "confirmationBy";
  }

  lemma KeyProjectLead()
    ensures LookupKey("Project Lead") == "projectlead"
  {
    ProjectLeadWords();
    ResolvesTwoWords("Project", "Lead", "project", "lead");
    assert "project" + "lead" == "projectlead";
  }

  /** The two words of "Project Lead", letter by letter. */
  lemma ProjectLeadWords()
    ensures "Project Lead" == "Project" + " " + "Lead"
    ensures IsLetters("Project") && Lower("Project") == "project"
    ensures IsLetters("Lead") && Lower("Lead") == "lead"
  {
  }

  lemma ColumnProjectLead()
    ensures Resolve("Project Lead") == Direct("projectLead")
  {
    KeyProjectLead();
    assert TemplateFor("projectlead") == None;
    assert FieldMap["projectlead"] == "projectLead";
  }

  lemma KeySentToAccounting()
    ensures LookupKey("Sent to Accounting") == "senttoaccounting"
  {
    SentToAccountingWords();
    ResolvesThreeWords("Sent", "to", "Accounting", "sent", "to", "accounting");
    assert "sent" + "to" + "accounting" == "senttoaccounting";
  }

  /** The three words of "Sent to Accounting", letter by letter. */
  lemma SentToAccountingWords()
    ensures "Sent to Accounting" == "Sent" + " " + "to" + " " + "Accounting"
    ensures IsLetters("Sent") && Lower("Sent") == "sent"
    ensures IsLetters("to") && Lower("to") == "to"
    ensures IsLetters("Accounting") && Lower("Accounting") == "accounting"
  {
  }

  lemma ColumnSentToAccounting()
    ensures Resolve("Sent to Accounting") == Direct("sentToAccounting")
  {
    KeySentToAccounting();
    assert TemplateFor("senttoaccounting") == None;
    assert FieldMap["senttoaccounting"] == "sentToAccounting";
  }

  lemma KeyBillingStatus()
    ensures LookupKey("Billing Status") == "billingstatus"
  {
    BillingStatusWords();
    ResolvesTwoWords("Billing", "Status", "billing", "status");
    assert "billing" + "status" == "billingstatus";
  }

  /** The two words of "Billing Status", letter by letter. */
  lemma BillingStatusWords()
    ensures "Billing Status" == "Billing" + " " + "Status"
    ensures IsLetters("Billing") && Lower("Billing") == "billing"
    ensures IsLetters("Status") && Lower("Status") == "status"
  {
  }

  lemma ColumnBillingStatus()
    ensures Resolve("Billing Status") == Direct("billingStatus")
  {
    KeyBillingStatus();
    assert TemplateFor("billingstatus") == None;
    assert FieldMap["billingstatus"] == "billingStatus";
  }

  lemma KeyGstFilingStatus()
    ensures LookupKey("GST Filing Status") == "gstfilingstatus"
  {
    GstFilingStatusWords();
    ResolvesThreeWords("GST", "Filing", "Status", "gst", "filing", "status");
    assert "gst" + "filing" + "status" == "gstfilingstatus";
  }

  /** The three words of "GST Filing Status", letter by letter. */
  lemma GstFilingStatusWords()
    ensures "GST Filing Status" == "GST" + " " + "Filing" + " " + "Status"
    ensures IsLetters("GST") && Lower("GST") == "gst"
    ensures IsLetters("Filing") && Lower("Filing") == "filing"
    ensures IsLetters("Status") && Lower("Status") == "status"
  {
  }

  lemma ColumnGstFilingStatus()
    ensures Resolve("GST Filing Status") == Direct("gstFilingStatus")
  {
    KeyGstFilingStatus();
    assert TemplateFor("gstfilingstatus") == None;
    assert FieldMap["gstfilingstatus"] == "gstFilingStatus";
  }

  /** Every jobs header resolves as listed: 'Project' and 'Status' are composite keys, so those two columns take templates instead of a field. */
  lemma JobsHeadersResolve()
    ensures |JobsHeaders| == |JobsColumns| == 14
    ensures forall i :: 0 <= i < |JobsHeaders| ==> Resolve(JobsHeaders[i]) == JobsColumns[i]
  {
    JobsHeadersResolveFrom0();
    JobsHeadersResolveFrom4();
    JobsHeadersResolveFrom8();
    JobsHeadersResolveFrom12();
    forall i | 0 <= i < |JobsHeaders|
      ensures Resolve(JobsHeaders[i]) == JobsColumns[i]
    {
      assert i == 0 || i == 1 || i == 2 || i == 3 || i == 4 || i == 5 || i == 6 || i == 7 || i == 8 || i == 9 || i == 10 || i == 11 || i == 12 || i == 13;
    }
  }

  lemma JobsHeadersResolveFrom0()
    ensures Resolve(JobsHeaders[0]) == JobsColumns[0]
    ensures Resolve(JobsHeaders[1]) == JobsColumns[1]
    ensures Resolve(JobsHeaders[2]) == JobsColumns[2]
    ensures Resolve(JobsHeaders[3]) == JobsColumns[3]
  {
    assert JobsHeaders[0] == "Project" && JobsColumns[0] == Composite(ProjectRef);
    assert JobsHeaders[1] == "Project ID" && JobsColumns[1] == Direct("projectId");
    assert JobsHeaders[2] == "Description" && JobsColumns[2] == Direct("description");
    assert JobsHeaders[3] == "Project Value" && JobsColumns[3] == Direct("projectValue");
    ColumnProject();
    ColumnProjectId();
    ColumnDescription();
    ColumnProjectValue();
  }

  lemma JobsHeadersResolveFrom4()
    ensures Resolve(JobsHeaders[4]) == JobsColumns[4]
    ensures Resolve(JobsHeaders[5]) == JobsColumns[5]
    ensures Resolve(JobsHeaders[6]) == JobsColumns[6]
    ensures Resolve(JobsHeaders[7]) == JobsColumns[7]
  {
    assert JobsHeaders[4] == "Designers" && JobsColumns[4] == Direct("designers");
    assert JobsHeaders[5] == "Frontend" && JobsColumns[5] == Direct("frontend");
    assert JobsHeaders[6] == "Backend" && JobsColumns[6] == Direct("backend");
    assert JobsHeaders[7] == "Created On" && JobsColumns[7] == Direct("createdOn");
    ColumnDesigners();
    ColumnFrontend();
    ColumnBackend();
    ColumnCreatedOn();
  }

  lemma JobsHeadersResolveFrom8()
    ensures Resolve(JobsHeaders[8]) == JobsColumns[8]
    ensures Resolve(JobsHeaders[9]) == JobsColumns[9]
    ensures Resolve(JobsHeaders[10]) == JobsColumns[10]
    ensures Resolve(JobsHeaders[11]) == JobsColumns[11]
  {
    assert JobsHeaders[8] == "Deadline" && JobsColumns[8] == Direct("deadline");
    assert JobsHeaders[9] == "Overdue" && JobsColumns[9] == Direct("overdue");
    assert JobsHeaders[10] == "Status" && JobsColumns[10] == Composite(GstStatus);
    assert JobsHeaders[11] == "AWS Details" && JobsColumns[11] == Direct("awsDetails");
    ColumnDeadline();
    ColumnOverdue();
    ColumnStatus();
    ColumnAwsDetails();
  }

  lemma JobsHeadersResolveFrom12()
    ensures Resolve(JobsHeaders[12]) == JobsColumns[12]
    ensures Resolve(JobsHeaders[13]) == JobsColumns[13]
  {
    assert JobsHeaders[12] == "Figma File" && JobsColumns[12] == Direct("figmaFile");
    assert JobsHeaders[13] == "Hold Reassign" && JobsColumns[13] == Direct("holdReassign");
    ColumnFigmaFile();
    ColumnHoldReassign();
  }

  lemma KeyProject()
    ensures LookupKey("Project") == "project"
  {
    assert Lower("Project") == "project";
    KeyOfWord("Project");
  }

  lemma ColumnProject()
    ensures Resolve("Project") == Composite(ProjectRef)
  {
    KeyProject();
  }

  lemma KeyProjectId()
    ensures LookupKey("Project ID") == "projectid"
  {
    ProjectIdWords();
    ResolvesTwoWords("Project", "ID", "project", "id");
    assert "project" + "id" == "projectid";
  }

  /** The two words of "Project ID", letter by letter. */
  lemma ProjectIdWords()
    ensures "Project ID" == "Project" + " " + "ID"
    ensures IsLetters("Project") && Lower("Project") == "project"
    ensures IsLetters("ID") && Lower("ID") == "id"
  {
  }

  lemma ColumnProjectId()
    ensures Resolve("Project ID") == Direct("projectId")
  {
    KeyProjectId();
    assert TemplateFor("projectid") == None;
    assert FieldMap["projectid"] == "projectId";
  }

  lemma KeyDescription()
    ensures LookupKey("Description") == "description"
  {
    assert Lower("Description") == "description";
    KeyOfWord("Description");
  }

  lemma ColumnDescription()
    ensures Resolve("Description") == Direct("description")
  {
    KeyDescription();
    assert TemplateFor("description") == None;
    assert "description" !in FieldMap;
  }

  lemma KeyProjectValue()
    ensures LookupKey("Project Value") == "projectvalue"
  {
    ProjectValueWords();
    ResolvesTwoWords("Project", "Value", "project", "value");
    assert "project" + "value" == "projectvalue";
  }

  /** The two words of "Project Value", letter by letter. */
  lemma ProjectValueWords()
    ensures "Project Value" == "Project" + " " + "Value"
    ensures IsLetters("Project") && Lower("Project") == "project"
    ensures IsLetters("Value") && Lower("Value") == "value"
  {
  }

  lemma ColumnProjectValue()
    ensures Resolve("Project Value") == Direct("projectValue")
  {
    KeyProjectValue();
    assert TemplateFor("projectvalue") == None;
    assert FieldMap["projectvalue"] == "projectValue";
  }

  lemma KeyDesigners()
    ensures LookupKey("Designers") == "designers"
  {
    assert Lower("Designers") == "designers";
    KeyOfWord("Designers");
  }

  lemma ColumnDesigners()
    ensures Resolve("Designers") == Direct("designers")
  {
    KeyDesigners();
    assert TemplateFor("designers") == None;
    assert "designers" !in FieldMap;
  }

  lemma KeyFrontend()
    ensures LookupKey("Frontend") == "frontend"
  {
    assert Lower("Frontend") == "frontend";
    KeyOfWord("Frontend");
  }

  lemma ColumnFrontend()
    ensures Resolve("Frontend") == Direct("frontend")
  {
    KeyFrontend();
    assert TemplateFor("frontend") == None;
    assert "frontend" !in FieldMap;
  }

  lemma KeyBackend()
    ensures LookupKey("Backend") == "backend"
  {
    assert Lower("Backend") == "backend";
    KeyOfWord("Backend");
  }

  lemma ColumnBackend()
    ensures Resolve("Backend") == Direct("backend")
  {
    KeyBackend();
    assert TemplateFor("backend") == None;
    assert "backend" !in FieldMap;
  }

  lemma KeyCreatedOn()
    ensures LookupKey("Created On") == "createdon"
  {
    CreatedOnWords();
    ResolvesTwoWords("Created", "On", "created", "on");
    assert "created" + "on" == "createdon";
  }

  /** The two words of "Created On", letter by letter. */
  lemma CreatedOnWords()
    ensures "Created On" == "Created" + " " + "On"
    ensures IsLetters("Created") && Lower("Created") == "created"
    ensures IsLetters("On") && Lower("On") == "on"
  {
  }

  lemma ColumnCreatedOn()
    ensures Resolve("Created On") == Direct("createdOn")
  {
    KeyCreatedOn();
    assert TemplateFor("createdon") == None;
    assert FieldMap["createdon"] == "createdOn";
  }

  lemma KeyDeadline()
    ensures LookupKey("Deadline") == "deadline"
  {
    assert Lower("Deadline") == "deadline";
    KeyOfWord("Deadline");
  }

  lemma ColumnDeadline()
    ensures Resolve("Deadline") == Direct("deadline")
  {
    KeyDeadline();
    assert TemplateFor("deadline") == None;
    assert "deadline" !in FieldMap;
  }

  lemma KeyOverdue()
    ensures LookupKey("Overdue") == "overdue"
  {
    assert Lower("Overdue") == "overdue";
    KeyOfWord("Overdue");
  }

  lemma ColumnOverdue()
    ensures Resolve("Overdue") == Direct("overdue")
  {
    KeyOverdue();
    assert TemplateFor("overdue") == None;
    assert "overdue" !in FieldMap;
  }

  lemma KeyStatus()
    ensures LookupKey("Status") == "status"
  {
    assert Lower("Status") == "status";
    KeyOfWord("Status");
  }

  lemma ColumnStatus()
    ensures Resolve("Status") == Composite(GstStatus)
  {
    KeyStatus();
  }

  lemma KeyAwsDetails()
    ensures LookupKey("AWS Details") == "awsdetails"
  {
    AwsDetailsWords();
    ResolvesTwoWords("AWS", "Details", "aws", "details");
    assert "aws" + "details" == "awsdetails";
  }

  /** The two words of "AWS Details", letter by letter. */
  lemma AwsDetailsWords()
    ensures "AWS Details" == "AWS" + " " + "Details"
    ensures IsLetters("AWS") && Lower("AWS") == "aws"
    ensures IsLetters("Details") && Lower("Details") == "details"
  {
  }

  lemma ColumnAwsDetails()
    ensures Resolve("AWS Details") == Direct("awsDetails")
  {
    KeyAwsDetails();
    assert TemplateFor("awsdetails") == None;
    assert FieldMap["awsdetails"] == "awsDetails";
  }

  lemma KeyFigmaFile()
    ensures LookupKey("Figma File") == "figmafile"
  {
    FigmaFileWords();
    ResolvesTwoWords("Figma", "File", "figma", "file");
    assert "figma" + "file" == "figmafile";
  }

  /** The two words of "Figma File", letter by letter. */
  lemma FigmaFileWords()
    ensures "Figma File" == "Figma" + " " + "File"
    ensures IsLetters("Figma") && Lower("Figma") == "figma"
    ensures IsLetters("File") && Lower("File") == "file"
  {
  }

  lemma ColumnFigmaFile()
    ensures Resolve("Figma File") == Direct("figmaFile")
  {
    KeyFigmaFile();
    assert TemplateFor("figmafile") == None;
    assert FieldMap["figmafile"] == "figmaFile";
  }

  lemma KeyHoldReassign()
    ensures LookupKey("Hold Reassign") == "holdreassign"
  {
    HoldReassignWords();
    ResolvesTwoWords("Hold", "Reassign", "hold", "reassign");
    assert "hold" + "reassign" == "holdreassign";
  }

  /** The two words of "Hold Reassign", letter by letter. */
  lemma HoldReassignWords()
    ensures "Hold Reassign" == "Hold" + " " + "Reassign"
    ensures IsLetters("Hold") && Lower("Hold") == "hold"
    ensures IsLetters("Reassign") && Lower("Reassign") == "reassign"
  {
  }

  lemma ColumnHoldReassign()
    ensures Resolve("Hold Reassign") == Direct("holdReassign")
  {
    KeyHoldReassign();
    assert TemplateFor("holdreassign") == None;
    assert FieldMap["holdreassign"] == "holdReassign";
  }
}
