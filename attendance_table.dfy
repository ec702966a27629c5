/** The admin attendance table: the search over records by their user's
    names, department and the record's status, and the two user lookups
    its rows show. */
module AttendanceTable {
  import opened Seqs
  import opened Text
  import opened UserTypes
  import opened AttendanceTypes
  import opened UserService

  /** "first last" of the record's user, or "Unknown". */
  function GetUserName(users: seq<User>, userId: string): (n: string)
    ensures FindUser(users, userId).None? <==> n == "Unknown" && forall u :: u in users ==> u.id != userId
    ensures FindUser(users, userId).Some? ==>
              var u := FindUser(users, userId).value;
              n == u.firstName + " " + u.lastName
  {
    match FindUser(users, userId)
    case Some(u) => u.firstName + " " + u.lastName
    case None => "Unknown"
  }

  /** The department of the record's user, or "Unknown"; an empty
      department is shown as it is. */
  function GetUserDepartment(users: seq<User>, userId: string): (d: string)
    ensures FindUser(users, userId).Some? ==> d == FindUser(users, userId).value.department
    ensures (forall u :: u in users ==> u.id != userId) ==> d == "Unknown"
  {
    match FindUser(users, userId)
    case Some(u) => u.department
    case None => "Unknown"
  }

  /** Whether the (already lower-cased) term occurs in one of the four
      searched texts. */
  predicate RecordMatches(users: seq<User>, term: string, r: AttendanceRecord) {
    match FindUser(users, r.userId)
    case None => false
    case Some(u) =>
      Contains(Lower(u.firstName), term) || Contains(Lower(u.lastName), term) ||
      Contains(Lower(u.department), term) || Contains(Lower(StatusName(r.status)), term)
  }

  function Matching(users: seq<User>, term: string): AttendanceRecord -> bool {
    (r: AttendanceRecord) => RecordMatches(users, term, r)
  }

  /** `filterRecords`: a blank term keeps everything; otherwise a record is
      kept when its user is known and the lower-cased, untrimmed term
      occurs in the user's first name, last name or department, or in the
      status. */
  function FilterRecords(records: seq<AttendanceRecord>, users: seq<User>, searchTerm: string)
    : (r: seq<AttendanceRecord>)
    ensures IsBlank(searchTerm) ==> r == records
    ensures !IsBlank(searchTerm) ==>
              forall x :: x in r <==> x in records && RecordMatches(users, Lower(searchTerm), x)
    ensures !IsBlank(searchTerm) ==>
              forall x :: multiset(r)[x] == if RecordMatches(users, Lower(searchTerm), x) then multiset(records)[x] else 0
    ensures !IsBlank(searchTerm) ==> forall x :: x in r ==> FindUser(users, x.userId).Some?
    ensures IsSubsequence(r, records)
  {
    if Trim(searchTerm) == [] then
      SubsequenceReflexive(records);
      records
    else
      FilterIsSubsequence(records, Matching(users, Lower(searchTerm)));
      FilterMultiset(records, Matching(users, Lower(searchTerm)));
      Filter(records, Matching(users, Lower(searchTerm)))
  }

  /** A space taken over from the term must be matched by a space, since
      lower-casing never produces one. */
  lemma {:induction false} SpaceSurvivesContains(hay: string, term: string)
    requires ' ' in term && Contains(Lower(hay), Lower(term))
    ensures ' ' in hay
  {
    var k :| 0 <= k < |term| && term[k] == ' ';
    assert Lower(term)[k] == ' ';
    var i :| 0 <= i <= |Lower(hay)| - |Lower(term)| && OccursAt(Lower(hay), Lower(term), i);
    assert Lower(hay)[i + k] == Lower(hay)[i..i + |term|][k] == ' ';
    assert hay[i + k] == ' ';
  }

  lemma NoSpaceNoContains(hay: string, term: string)
    requires ' ' in term && ' ' !in hay
    ensures !Contains(Lower(hay), Lower(term))
  {
    if Contains(Lower(hay), Lower(term)) {
      SpaceSurvivesContains(hay, term);
    }
  }

  lemma StatusHasNoSpace(s: AttendanceStatus)
    ensures ' ' !in StatusName(s)
  {
    match s
    case ClockedIn => assert StatusName(s) == "clocked_in";
    case ClockedOut => assert StatusName(s) == "clocked_out";
    case Break => assert StatusName(s) == "break";
    case Pending => assert StatusName(s) == "pending";
  }

  lemma NoSpaceNoMatch(users: seq<User>, searchTerm: string, x: AttendanceRecord)
    requires ' ' in searchTerm
    requires forall u :: u in users ==> ' ' !in u.firstName && ' ' !in u.lastName && ' ' !in u.department
    ensures !RecordMatches(users, Lower(searchTerm), x)
  {
    var found := FindUser(users, x.userId);
    if found.Some? {
      var u := found.value;
      assert u in users;
      StatusHasNoSpace(x.status);
      NoSpaceNoContains(u.firstName, searchTerm);
      NoSpaceNoContains(u.lastName, searchTerm);
      NoSpaceNoContains(u.department, searchTerm);
      NoSpaceNoContains(StatusName(x.status), searchTerm);
    }
  }

  /** The term is not trimmed: a term containing a space finds nothing when
      no searched text of any record contains one. */
  lemma SpacesAreSearched(records: seq<AttendanceRecord>, users: seq<User>, searchTerm: string)
    requires !IsBlank(searchTerm) && ' ' in searchTerm
    requires forall u :: u in users ==> ' ' !in u.firstName && ' ' !in u.lastName && ' ' !in u.department
    ensures FilterRecords(records, users, searchTerm) == []
  {
    var r := FilterRecords(records, users, searchTerm);
    if r != [] {
      assert r[0] in r;
      NoSpaceNoMatch(users, searchTerm, r[0]);
    }
  }
}
