/** The Accounts work queue: 48 seeded rows, searched over all fifteen fields. */
module Accounts {
  import opened Text
  import ListView

  /** `invoiceNo: string | number`. */
  datatype InvoiceNo = Number(n: int) | Text(s: string)

  /** `invoiceNo.toString()`. */
  function InvoiceText(v: InvoiceNo): string
  {
    match v
    case Number(n) => IntToString(n)
    case Text(s) => s
  }

  datatype AccountsRow = AccountsRow(
    clientId: string,
    clientName: string,
    cPhone: string,
    cEmail: string,
    gstNo: string,
    valueInclGst: string,
    invoiceNo: InvoiceNo,
    invoiceDate: string,
    generateBill: string,
    billingType: string,
    advPayment: string,
    awsBill: string,
    paymentDate: string,
    filingDate: string,
    accountNo: string)

  /** Seeded row `i`. */
  function SampleRow(i: nat): AccountsRow
  {
    AccountsRow(
      ListView.SampleId(i), if i % 2 != 0 then "Mahes" else "Raju Babu",
      "9867456734", "Rosie@gma..", "DSER234S3", "₹ 100000", Number(1232),
      "29/12/2023", if i % 3 == 0 then "One Time" else "Monthly", "Monthly",
      "₹ 100000", "₹ 100000", "29/12/2023", "29/12/2023", "83242423424234")
  }

  /** `sampleRows`. */
  function SampleRows(): (rows: seq<AccountsRow>)
    ensures |rows| == 48
  {
    seq(48, i requires 0 <= i < 48 => SampleRow(i))
  }

  /** The fifteen values the search box looks at, in the order listed;
      the invoice number is searched through its decimal text. */
  function SearchFields(r: AccountsRow): seq<string>
  {
    [r.clientId, r.clientName, r.cPhone, r.cEmail, r.gstNo, r.valueInclGst,
     InvoiceText(r.invoiceNo), r.invoiceDate, r.generateBill, r.billingType,
     r.advPayment, r.awsBill, r.paymentDate, r.filingDate, r.accountNo]
  }

  /** A numeric invoice number is found by typing its digits. */
  lemma InvoiceFoundByDigits(r: AccountsRow, n: int)
    requires r.invoiceNo == Number(n)
    ensures ListView.Matches(SearchFields, IntToString(n), r)
  {
    var v := SearchFields(r)[6];
    assert v == IntToString(n);
    LowerIdempotent(v);
    assert Contains(Lower(v), Lower(IntToString(n)));
  }

  /** Seeded client names alternate, "Raju Babu" on even rows and "Mahes" on
      odd ones; the bill is generated "One Time" exactly on multiples of three. */
  lemma SampleAlternation(i: nat)
    requires i < 48
    ensures SampleRows()[i].clientName == "Raju Babu" <==> i % 2 == 0
    ensures SampleRows()[i].clientName == "Mahes" <==> i % 2 == 1
    ensures SampleRows()[i].generateBill == "One Time" <==> i % 3 == 0
  {
  }

  /** Opening the screen: all 48 rows under the blank query, page 1 of 5, ten rows shown. */
  method Mount() returns (screen: ListView.ListScreen<AccountsRow>)
    ensures fresh(screen) && screen.Valid()
    ensures screen.rows == SampleRows() && screen.fields == SearchFields
    ensures screen.query == "" && screen.page == 1
    ensures screen.FilteredRows() == SampleRows()
    ensures screen.Count() == 5 && |screen.PageRows()| == 10
  {
    screen := new ListView.ListScreen(SampleRows(), SearchFields);
    ListView.FortyEightRows(SampleRows());
  }
}
