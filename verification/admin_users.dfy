/** `AdminUsersComponent`: a fixed user table with a case-insensitive
    search over username and e-mail, and a badge class per status. */
module AdminUsers {
  import opened Common
  import Text
  import Seqs

  datatype User = User(id: int, username: String, email: String, role: String, status: String)

  const Users: seq<User> := [
    User(1, "john_doe", "john@example.com", "Admin", "Active"),
    User(2, "jane_smith", "jane@example.com", "User", "Active"),
    User(3, "bob_wilson", "bob@example.com", "User", "Inactive"),
    User(4, "alice_jones", "alice@example.com", "Moderator", "Active"),
    User(5, "charlie_brown", "charlie@example.com", "User", "Pending")
  ]

  /** The test of the `filteredUsers` filter for one user. */
  predicate UserMatches(u: User, searchTerm: String) {
    Text.IncludesIgnoreCase(u.username, searchTerm) || Text.IncludesIgnoreCase(u.email, searchTerm)
  }

  /** The `filteredUsers` getter over a user list: an empty search term
      returns the list itself, any other keeps the users whose username or
      e-mail contains it, ignoring case, in table order. */
  function FilteredUsers(users: seq<User>, searchTerm: String): (r: seq<User>)
    ensures searchTerm == "" ==> r == users
    ensures Seqs.IsSubsequence(r, users)
    ensures forall u :: u in r <==> u in users && UserMatches(u, searchTerm)
    ensures forall u :: multiset(r)[u] == if UserMatches(u, searchTerm) then multiset(users)[u] else 0
  {
    if searchTerm == "" then
      forall u
        ensures UserMatches(u, searchTerm)
      {
        Text.IncludesEmpty(Text.Lower(u.username));
      }
      Seqs.SubsequenceRefl(users);
      users
    else
      var r := Seqs.Filter(users, u => UserMatches(u, searchTerm));
      Seqs.FilterSpec(users, u => UserMatches(u, searchTerm));
      forall u | u in r
        ensures u in users && UserMatches(u, searchTerm)
      {
        var i :| 0 <= i < |r| && r[i] == u;
      }
      forall u | u in users && UserMatches(u, searchTerm)
        ensures u in r
      {
        var i :| 0 <= i < |users| && users[i] == u;
      }
      r
  }

  /** `getStatusBadgeClass(status)`. */
  function StatusBadgeClass(status: String): (r: String)
    ensures status == "Active" ==> r == "bg-success"
    ensures status == "Inactive" ==> r == "bg-secondary"
    ensures status == "Pending" ==> r == "bg-warning text-dark"
    ensures status !in {"Active", "Inactive", "Pending"} ==> r == "bg-primary"
  {
    match status
    case "Active" => "bg-success"
    case "Inactive" => "bg-secondary"
    case "Pending" => "bg-warning text-dark"
    case _ => "bg-primary"
  }

  /** The search is insensitive to the case of the term. */
  lemma {:induction false} SearchIgnoresCase(users: seq<User>, searchTerm: String)
    ensures FilteredUsers(users, Text.Upper(searchTerm)) == FilteredUsers(users, searchTerm)
  {
    Text.LowerOfUpper(searchTerm);
    assert |Text.Upper(searchTerm)| == |searchTerm|;
    if searchTerm != "" {
      Seqs.FilterCongruent(users, u => UserMatches(u, Text.Upper(searchTerm)), u => UserMatches(u, searchTerm));
    }
  }

  /** Each status gets its own badge class. */
  lemma BadgeClassesDistinct()
    ensures StatusBadgeClass("Active") != StatusBadgeClass("Inactive")
    ensures StatusBadgeClass("Active") != StatusBadgeClass("Pending")
    ensures StatusBadgeClass("Inactive") != StatusBadgeClass("Pending")
    ensures forall s :: s != "Active" && s != "Inactive" && s != "Pending" ==> StatusBadgeClass(s) == "bg-primary"
  {
  }
}
