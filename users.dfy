/** The mock user directory and its three lookups. */
module UserService {
  import opened Seqs
  import opened UserTypes

  const MockUsers: seq<User> := [
    User("1", "admin@example.com", "Admin", "User", Admin, "Management", "HR Director",
         Some("https://i.pravatar.cc/150?img=1")),
    User("2", "employee@example.com", "John", "Doe", Employee, "Engineering", "Software Developer",
         Some("https://i.pravatar.cc/150?img=2")),
    User("3", "jane@example.com", "Jane", "Smith", Employee, "Marketing", "Marketing Specialist",
         Some("https://i.pravatar.cc/150?img=3")),
    User("4", "robert@example.com", "Robert", "Johnson", Employee, "Sales", "Sales Representative",
         Some("https://i.pravatar.cc/150?img=4")),
    User("5", "emily@example.com", "Emily", "Williams", Employee, "Customer Support", "Support Specialist",
         Some("https://i.pravatar.cc/150?img=5"))
  ]

  function HasId(id: string): User -> bool {
    (u: User) => u.id == id
  }

  /** `users.find(u => u.id === id)`, the lookup every page repeats. */
  function FindUser(users: seq<User>, id: string): (r: Option<User>)
    ensures r.Some? ==> r.value in users && r.value.id == id
    ensures r.None? <==> forall u :: u in users ==> u.id != id
    ensures r.Some? ==> exists i :: 0 <= i < |users| && users[i] == r.value &&
                                    forall j :: 0 <= j < i ==> users[j].id != id
  {
    match FindIndex(users, HasId(id))
    case Some(i) => Some(users[i])
    case None =>
      assert forall u :: u in users ==> u.id != id by {
        forall u | u in users
          ensures u.id != id
        {
          var j :| 0 <= j < |users| && users[j] == u;
          assert !HasId(id)(users[j]);
        }
      }
      None
  }

  /** With distinct ids, the user found is the one carrying the id. */
  lemma FindUserUnique(users: seq<User>, u: User)
    requires forall i, j :: 0 <= i < j < |users| ==> users[i].id != users[j].id
    requires u in users
    ensures FindUser(users, u.id) == Some(u)
  {
    var r := FindUser(users, u.id);
    var i :| 0 <= i < |users| && users[i] == r.value && forall j :: 0 <= j < i ==> users[j].id != u.id;
    var k :| 0 <= k < |users| && users[k] == u;
    assert !(k < i) && !(i < k);
  }

  /** A copy of the whole directory, in its order. */
  function GetAllUsers(): (r: seq<User>)
    ensures r == MockUsers
  {
    MockUsers[..]
  }

  function GetUserById(id: string): (r: Option<User>)
    ensures r.Some? <==> exists u :: u in MockUsers && u.id == id
    ensures r.Some? ==> r.value in MockUsers && r.value.id == id
  {
    FindUser(MockUsers, id)
  }

  function IsEmployee(): User -> bool {
    (u: User) => u.role == Employee
  }

  /** The users whose role is employee, in directory order. */
  function GetEmployees(): (r: seq<User>)
    ensures forall u :: u in r <==> u in MockUsers && u.role == Employee
    ensures IsSubsequence(r, MockUsers)
  {
    FilterIsSubsequence(MockUsers, IsEmployee());
    Filter(MockUsers, IsEmployee())
  }

  lemma MockUserIdsDistinct()
    ensures forall i, j :: 0 <= i < j < |MockUsers| ==> MockUsers[i].id != MockUsers[j].id
  {
  }

  /** The administrator is not listed among the employees, who are the other
      four users. */
  lemma EmployeesExcludeAdmin()
    ensures MockUsers[0] !in GetEmployees()
    ensures GetEmployees() == MockUsers[1..]
  {
    FilterDropsHead(MockUsers, IsEmployee());
  }
}
