/**
 * The user-management list: a search over name and e-mail combined with role and status
 * dropdowns, the status badge and the role colours.
 */
module UserManagement {
  import Text
  import Listing

  datatype User = User(id: int, name: string, email: string, role: string, status: string, lastLogin: string)

  predicate MatchesSearch(u: User, term: string) {
    Text.MatchesIgnoringCase(u.name, term) || Text.MatchesIgnoringCase(u.email, term)
  }

  function KeepWith(term: string, roleFilter: string, statusFilter: string): User -> bool {
    (u: User) => MatchesSearch(u, term) && Listing.Selects(roleFilter, u.role) && Listing.Selects(statusFilter, u.status)
  }

  function FilterUsers(users: seq<User>, term: string, roleFilter: string, statusFilter: string): seq<User> {
    Listing.Filter(users, KeepWith(term, roleFilter, statusFilter))
  }

  /** A user is listed iff the name or e-mail contains the term (ignoring case) and the role and the
      status are the selected ones, "all" switching a dropdown off; the list keeps the input order. */
  lemma FilterUsersCorrect(users: seq<User>, term: string, roleFilter: string, statusFilter: string)
    ensures forall u :: u in FilterUsers(users, term, roleFilter, statusFilter) <==>
              && u in users && MatchesSearch(u, term)
              && (roleFilter == "all" || u.role == roleFilter)
              && (statusFilter == "all" || u.status == statusFilter)
    ensures forall a, b :: FilterUsers(a + b, term, roleFilter, statusFilter) ==
                           FilterUsers(a, term, roleFilter, statusFilter) + FilterUsers(b, term, roleFilter, statusFilter)
  {
    Listing.FilterMembers(users, KeepWith(term, roleFilter, statusFilter));
    forall a, b ensures FilterUsers(a + b, term, roleFilter, statusFilter) ==
                        FilterUsers(a, term, roleFilter, statusFilter) + FilterUsers(b, term, roleFilter, statusFilter) {
      Listing.FilterConcat(a, b, KeepWith(term, roleFilter, statusFilter));
    }
  }

  /** Narrowing a dropdown from "all" to one value keeps a subset, in the same order. */
  lemma NarrowingRole(users: seq<User>, term: string, role: string, statusFilter: string)
    ensures FilterUsers(users, term, role, statusFilter) ==
            Listing.Filter(FilterUsers(users, term, "all", statusFilter), KeepWith(term, role, statusFilter))
  {
    Listing.FilterRefines(users, KeepWith(term, role, statusFilter), KeepWith(term, "all", statusFilter));
  }

  datatype Variant = Default | Secondary

  /** `getStatusBadge`: the default variant exactly for "Active"; the text is the status itself. */
  function StatusBadge(status: string): (r: (Variant, string))
    ensures r.0 == Default <==> status == "Active"
    ensures r.1 == status
  {
    (if status == "Active" then Default else Secondary, status)
  }

  /** The colour of the role badge: the three known roles have their own, anything else is gray. */
  function RoleColor(role: string): (r: string)
    ensures r == "bg-gray-100 text-gray-800" <==> role !in ["Admin", "Manager", "Viewer"]
    ensures role == "Admin" ==> r == "bg-red-100 text-red-800"
  {
    match role
    case "Admin" => "bg-red-100 text-red-800"
    case "Manager" => "bg-blue-100 text-blue-800"
    case "Viewer" => "bg-green-100 text-green-800"
    case _ => "bg-gray-100 text-gray-800"
  }

  /** The three known roles get three different colours. */
  lemma RoleColorsDistinct(a: string, b: string)
    requires a in ["Admin", "Manager", "Viewer"] && b in ["Admin", "Manager", "Viewer"]
    ensures RoleColor(a) == RoleColor(b) <==> a == b
  {
  }
}
