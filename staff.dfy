/** The Staff screen: staff members searched by name, email and employee id,
    an Employee or Intern label read off the employee id, and a status badge. */
module Staff {
  import opened Text
  import Seqs
  import Records
  import ListView

  datatype Member = Member(id: int, name: string, email: string, employeeId: string, role: string, status: string)

  function MemberIdOf(m: Member): int { m.id }

  /** `{ ...staffData, id }`. */
  function WithId(m: Member, id: int): Member { m.(id := id) }

  /** The five members the screen starts with. */
  const Seed: seq<Member> := [
    Member(1, "Digital Solutions", "digital@example.com", "EMP001", "Designer", "Active"),
    Member(2, "Ravi Coordinator", "ravi@example.com", "EMP002", "Project Coordinator", "Active"),
    Member(3, "Deep Test 1.2", "deep12@demo.com", "EMP003", "Designer", "Active"),
    Member(4, "Naveen KR", "naveen@example.com", "INT001", "Developer", "Active"),
    Member(5, "Sagar Kumar", "sagar12@gmail.com", "EMP005", "Designer", "Active")]

  /** The values the search looks at: name, email and employee id. */
  function SearchFields(m: Member): seq<string>
  {
    [m.name, m.email, m.employeeId]
  }

  /** A member matches when a searched value, lower-cased, includes the
      lower-cased term as typed. */
  predicate MemberMatches(m: Member, term: string)
  {
    ListView.AnyFieldIncludes(SearchFields(m), Lower(term))
  }

  /** `filteredStaff`. */
  function FilteredStaff(staff: seq<Member>, term: string): seq<Member>
  {
    Seqs.Filter(staff, (m: Member) => MemberMatches(m, term))
  }

  /** A member is listed iff it is on the staff and matches; the listing keeps the staff order. */
  lemma FilteredStaffExactly(staff: seq<Member>, term: string, m: Member)
    ensures m in FilteredStaff(staff, term) <==> m in staff && MemberMatches(m, term)
    ensures Seqs.IsSubsequence(FilteredStaff(staff, term), staff)
  {
    Seqs.FilterMembership(staff, (x: Member) => MemberMatches(x, term), m);
    Seqs.FilterIsSubsequence(staff, (x: Member) => MemberMatches(x, term));
  }

  /** The empty term lists the whole staff. */
  lemma EmptyTermListsAll(staff: seq<Member>)
    ensures FilteredStaff(staff, "") == staff
  {
    forall i | 0 <= i < |staff| ensures MemberMatches(staff[i], "") {
      ContainsEmpty(Lower(staff[i].name));
      assert SearchFields(staff[i])[0] == staff[i].name;
    }
    Seqs.FilterAll(staff, (x: Member) => MemberMatches(x, ""));
  }

  /** Role and status are not searched: changing them never changes whether a member matches. */
  lemma RoleAndStatusNotSearched(m: Member, term: string, role: string, status: string)
    ensures MemberMatches(m.(role := role, status := status), term) <==> MemberMatches(m, term)
  {
    assert SearchFields(m.(role := role, status := status)) == SearchFields(m);
  }

  /** `s.startsWith(prefix)`. */
  predicate StartsWith(s: string, prefix: string)
  {
    |prefix| <= |s| && s[..|prefix|] == prefix
  }

  /** The label under the employee id: Employee for ids starting with `EMP`, Intern for every other. */
  function Kind(employeeId: string): string
  {
    if StartsWith(employeeId, "EMP") then "Employee" else "Intern"
  }

  /** The label is Employee exactly when the id's first three characters are
      the capital letters E, M and P; any other id, lower-case `emp` included,
      is labelled Intern. */
  lemma KindByPrefix(employeeId: string)
    ensures Kind(employeeId) == "Employee" <==>
      |employeeId| >= 3 && employeeId[0] == 'E' && employeeId[1] == 'M' && employeeId[2] == 'P'
    ensures Kind(employeeId) == "Employee" || Kind(employeeId) == "Intern"
  {
    if |employeeId| >= 3 && employeeId[0] == 'E' && employeeId[1] == 'M' && employeeId[2] == 'P' {
      assert employeeId[..3] == "EMP";
    }
  }

  /** Of the starting staff, only `INT001` is an intern. */
  lemma SeedKinds()
    ensures forall i :: 0 <= i < |Seed| ==> (Kind(Seed[i].employeeId) == "Intern" <==> i == 3)
  {
    forall i | 0 <= i < |Seed| ensures Kind(Seed[i].employeeId) == "Intern" <==> i == 3 {
      KindByPrefix(Seed[i].employeeId);
    }
  }

  /** `getStatusBadge`: a fixed class prefix, then the colour of the status. */
  const BadgePrefix := "px-3 py-1 text-xs rounded-full "
  const BadgeColours: map<string, string> := map[
    "Active" := "bg-green-100 text-green-800",
    "Inactive" := "bg-red-100 text-red-800",
    "On Leave" := "bg-yellow-100 text-yellow-800"]
  const DefaultColour := "bg-gray-100 text-gray-800"

  function StatusBadge(status: string): string
  {
    BadgePrefix + (if status in BadgeColours then BadgeColours[status] else DefaultColour)
  }

  /** Active, Inactive and On Leave get their own colours; every other status gets gray. */
  lemma StatusBadgeColours(status: string)
    ensures StatusBadge("Active") == BadgePrefix + "bg-green-100 text-green-800"
    ensures StatusBadge("Inactive") == BadgePrefix + "bg-red-100 text-red-800"
    ensures StatusBadge("On Leave") == BadgePrefix + "bg-yellow-100 text-yellow-800"
    ensures status !in {"Active", "Inactive", "On Leave"} ==>
      StatusBadge(status) == BadgePrefix + "bg-gray-100 text-gray-800"
  {
  }

  /** The screen as first rendered. */
  method Mount() returns (screen: Records.RecordList<Member>)
    ensures fresh(screen) && screen.Valid()
    ensures screen.items == Seed && screen.searchTerm == ""
    ensures !screen.isModalOpen && screen.editing.None?
  {
    screen := new Records.RecordList(Seed, MemberIdOf, WithId);
  }
}
