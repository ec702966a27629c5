/** The admin employee list: the search over the directory and the count
    label above it. */
module EmployeeList {
  import opened Seqs
  import opened Text
  import opened UserTypes

  /** Whether the (already lower-cased) term occurs in one of the five
      searched fields. */
  predicate EmployeeMatches(term: string, e: User) {
    Contains(Lower(e.firstName), term) || Contains(Lower(e.lastName), term) ||
    Contains(Lower(e.department), term) || Contains(Lower(e.position), term) ||
    Contains(Lower(e.email), term)
  }

  function Matching(term: string): User -> bool {
    (e: User) => EmployeeMatches(term, e)
  }

  /** `filterEmployees`: a blank term keeps every employee; otherwise an
      employee is kept when the lower-cased, untrimmed term occurs in the
      first name, last name, department, position or email. */
  function FilterEmployees(employees: seq<User>, searchTerm: string): (r: seq<User>)
    ensures IsBlank(searchTerm) ==> r == employees
    ensures !IsBlank(searchTerm) ==>
              forall e :: e in r <==> e in employees && EmployeeMatches(Lower(searchTerm), e)
    ensures !IsBlank(searchTerm) ==>
              forall e :: multiset(r)[e] == if EmployeeMatches(Lower(searchTerm), e) then multiset(employees)[e] else 0
    ensures IsSubsequence(r, employees)
  {
    if Trim(searchTerm) == [] then
      SubsequenceReflexive(employees);
      employees
    else
      FilterIsSubsequence(employees, Matching(Lower(searchTerm)));
      FilterMultiset(employees, Matching(Lower(searchTerm)));
      Filter(employees, Matching(Lower(searchTerm)))
  }

  /** A term every employee matches keeps the whole list, in order. */
  lemma MatchingEveryoneKeepsAll(employees: seq<User>, searchTerm: string)
    requires forall i :: 0 <= i < |employees| ==> EmployeeMatches(Lower(searchTerm), employees[i])
    ensures FilterEmployees(employees, searchTerm) == employees
  {
    FilterKeepsAll(employees, Matching(Lower(searchTerm)));
  }

  /** The noun of the count label. */
  function Noun(n: nat): (w: string)
    ensures w == "employee" <==> n == 1
    ensures w == "employee" || w == "employees"
  {
    if n == 1 then "employee" else "employees"
  }

  /** `{count} {employee|employees} total`. */
  function CountLabel(n: nat): (s: string)
    ensures |s| > |NatToString(n)| && s[..|NatToString(n)|] == NatToString(n)
    ensures s[|NatToString(n)|..] == " " + Noun(n) + " total"
  {
    NatToString(n) + " " + Noun(n) + " total"
  }

  /** The label starts with the count, which reads back as the count. */
  lemma CountLabelReadsBack(n: nat)
    ensures ParseNat(CountLabel(n)[..|NatToString(n)|]) == n
  {
    ParseNatToString(n);
  }

  /** Labels of different counts differ. */
  lemma CountLabelInjective(m: nat, n: nat)
    requires CountLabel(m) == CountLabel(n)
    ensures m == n
  {
    // in each label the digits are followed by a space, which is no digit
    assert CountLabel(m)[|NatToString(m)|] == ' ' && CountLabel(n)[|NatToString(n)|] == ' ';
    if |NatToString(m)| < |NatToString(n)| {
      assert false;
    } else if |NatToString(n)| < |NatToString(m)| {
      assert false;
    } else {
      NatToStringInjective(m, n);
    }
  }
}
