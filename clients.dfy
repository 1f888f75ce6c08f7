/** The Clients screen: a list of clients searched by name, client id,
    phone and email, and the modal form that adds or edits one client. */
module Clients {
  import opened Text
  import opened Wrappers
  import Seqs
  import ListView
  import Records

  /** One client. `billingType` is one of "Monthly", "Annually", "One time";
      `billingStatus` is "Active" or "Inactive". */
  datatype Client = Client(
    id: int, clientId: string, name: string, phone: string, email: string,
    gstPercent: string, billingType: string, billingStatus: string)

  function ClientIdOf(c: Client): int { c.id }

  /** `{ ...data, id }`. */
  function WithId(c: Client, id: int): Client { c.(id := id) }

  /** The two clients the screen starts with. */
  const Seed: seq<Client> := [
    Client(1, "00001", "Raju Babu", "9867456734", "Rosie@gma..", "10 %", "Monthly", "Active"),
    Client(2, "00002", "Mahes", "9867456734", "Rosie@gma..", "10 %", "Annually", "Active")]

  /** The values the search looks at: name, client id, phone and email. */
  function SearchFields(c: Client): seq<string>
  {
    [c.name, c.clientId, c.phone, c.email]
  }

  /** `filteredClients`: the term is trimmed and lower-cased first; an empty
      result lists every client, otherwise the clients with a searched value
      that includes it, in list order. */
  function FilteredClients(clients: seq<Client>, term: string): seq<Client>
  {
    var q := Lower(Trim(term));
    if q == "" then clients
    else Seqs.Filter(clients, (c: Client) => ListView.AnyFieldIncludes(SearchFields(c), q))
  }

  /** A term of white space only lists every client unchanged. */
  lemma FilteredClientsBlank(clients: seq<Client>, term: string)
    requires IsBlank(term)
    ensures FilteredClients(clients, term) == clients
  {
    TrimEmptyIffBlank(term);
  }

  /** For any other term, a client is listed iff it is in the list and one of
      its four searched values includes the trimmed, lower-cased term; the
      listing keeps the list order. */
  lemma FilteredClientsExactly(clients: seq<Client>, term: string, c: Client)
    requires !IsBlank(term)
    ensures c in FilteredClients(clients, term)
        <==> c in clients && ListView.AnyFieldIncludes(SearchFields(c), Lower(Trim(term)))
    ensures Seqs.IsSubsequence(FilteredClients(clients, term), clients)
  {
    TrimEmptyIffBlank(term);
    var q := Lower(Trim(term));
    assert |q| == |Trim(term)|;
    var p := (x: Client) => ListView.AnyFieldIncludes(SearchFields(x), q);
    Seqs.FilterMembership(clients, p, c);
    Seqs.FilterIsSubsequence(clients, p);
  }

  /** Leading and trailing white space in the term makes no difference. */
  lemma FilteredClientsIgnoresOuterSpace(clients: seq<Client>, term: string)
    ensures FilteredClients(clients, term) == FilteredClients(clients, Trim(term))
  {
    TrimIdempotent(term);
  }

  /** GST and billing fields are not searched: changing them never changes
      whether a client is listed. */
  lemma BillingNotSearched(term: string, c: Client, gst: string, bt: string, bs: string)
    requires !IsBlank(term)
    ensures var d := c.(gstPercent := gst, billingType := bt, billingStatus := bs);
      d in FilteredClients([d], term) <==> c in FilteredClients([c], term)
  {
    var d := c.(gstPercent := gst, billingType := bt, billingStatus := bs);
    FilteredClientsExactly([c], term, c);
    FilteredClientsExactly([d], term, d);
    assert SearchFields(d) == SearchFields(c);
  }

  /** `getBillingStatusClass`: green for an active client, gray otherwise. */
  function BillingStatusClass(status: string): (r: string)
    ensures r == "text-green-600" <==> status == "Active"
    ensures r == "text-gray-600" <==> status != "Active"
  {
    if status == "Active" then "text-green-600" else "text-gray-600"
  }

  /** The seven inputs of `ClientModal`. */
  datatype ClientForm = ClientForm(
    clientId: string, name: string, phone: string, email: string,
    gstPercent: string, billingType: string, billingStatus: string)

  /** The form's first state: the edited client's values, or empty text with
      gstPercent "10 %", billingType "Monthly" and billingStatus "Active". */
  function InitialForm(initial: Option<Client>): ClientForm
  {
    match initial
    case Some(c) => ClientForm(c.clientId, c.name, c.phone, c.email, c.gstPercent, c.billingType, c.billingStatus)
    case None => ClientForm("", "", "", "", "10 %", "Monthly", "Active")
  }

  /** `isValid`: every one of the seven values is non-empty. */
  predicate IsValid(f: ClientForm)
  {
    f.clientId != "" && f.name != "" && f.phone != "" && f.email != ""
    && f.gstPercent != "" && f.billingType != "" && f.billingStatus != ""
  }

  /** The data the form submits: a client without an id of its own (the
      screen assigns one), modelled with id 0. */
  function Payload(f: ClientForm): Client
  {
    Client(0, f.clientId, f.name, f.phone, f.email, f.gstPercent, f.billingType, f.billingStatus)
  }

  /** A new form carries the three defaults and cannot be saved until the
      four text fields are filled; a form opened on a client submits that
      client's data unchanged. */
  lemma InitialFormMeaning(c: Client)
    ensures var f := InitialForm(None);
      f.gstPercent == "10 %" && f.billingType == "Monthly" && f.billingStatus == "Active" && !IsValid(f)
    ensures WithId(Payload(InitialForm(Some(c))), c.id) == c
  {
  }

  /** Filling a new form's four text fields is enough to make it valid. */
  lemma FilledNewFormIsValid(clientId: string, name: string, phone: string, email: string)
    requires clientId != "" && name != "" && phone != "" && email != ""
    ensures IsValid(InitialForm(None).(clientId := clientId, name := name, phone := phone, email := email))
  {
  }

  /** The screen as first rendered. */
  method Mount() returns (screen: Records.RecordList<Client>)
    ensures fresh(screen) && screen.Valid()
    ensures screen.items == Seed && screen.searchTerm == ""
    ensures !screen.isModalOpen && screen.editing == None
    ensures FilteredClients(screen.items, screen.searchTerm) == Seed
  {
    screen := new Records.RecordList(Seed, ClientIdOf, WithId);
  }

  /** The Save button: it does nothing while the form is invalid (it is
      disabled); otherwise it submits, so the client is edited in place or
      added under the next id, and the modal closes. */
  method Save(screen: Records.RecordList<Client>, f: ClientForm)
    requires screen.Valid() && screen.id == ClientIdOf && screen.withId == WithId
    modifies screen
    ensures screen.Valid()
    ensures !IsValid(f) ==> screen.items == old(screen.items) && screen.isModalOpen == old(screen.isModalOpen)
                            && screen.editing == old(screen.editing)
    ensures IsValid(f) && old(screen.editing).Some? ==>
      var target := old(screen.editing).value.id;
      screen.items == Records.ReplaceById(old(screen.items), ClientIdOf, target, WithId(Payload(f), target))
    ensures IsValid(f) && old(screen.editing).None? ==>
      screen.items == old(screen.items) + [WithId(Payload(f), Records.NextId(old(screen.items), ClientIdOf))]
    ensures IsValid(f) ==> !screen.isModalOpen && screen.editing == None
    ensures screen.searchTerm == old(screen.searchTerm)
  {
    if IsValid(f) {
      screen.Submit(Payload(f));
    }
  }
}
