/** The Users management page: a case-insensitive substring search over a fixed
    list of five users, its count caption and empty state, behind a role guard
    for admins and managers. */
module UsersPage {
  import opened Wrappers
  import opened Types
  import opened Strings
  import Seqs
  import RoleGuard
  import Sidebar

  datatype Status = Active | Inactive

  datatype UserRow = UserRow(id: string, name: string, email: string, role: UserRole,
                             status: Status, joinedDate: string)

  const MockUsers: seq<UserRow> := [
    UserRow("1", "Admin User", "admin@example.com", Admin, Active, "2024-01-01"),
    UserRow("2", "Manager User", "manager@example.com", Manager, Active, "2024-02-15"),
    UserRow("3", "John Doe", "john.doe@example.com", Member, Active, "2024-03-10"),
    UserRow("4", "Jane Smith", "jane.smith@example.com", Member, Active, "2024-03-12"),
    UserRow("5", "Bob Johnson", "bob.johnson@example.com", Member, Inactive, "2024-03-15")]

  /** The lowercased name or the lowercased email contains the (already lowercased) query. */
  predicate Matches(u: UserRow, loweredQuery: string)
  {
    Contains(ToLower(u.name), loweredQuery) || Contains(ToLower(u.email), loweredQuery)
  }

  function MatchingUsers(loweredQuery: string): seq<UserRow>
  {
    Seqs.Filter(MockUsers, u => Matches(u, loweredQuery))
  }

  /** `filteredUsers` for the search box's current text. */
  function FilteredUsers(searchQuery: string): seq<UserRow>
  {
    MatchingUsers(ToLower(searchQuery))
  }

  /** "Showing n of m users", for the list of users currently shown. */
  function CountCaption(shown: seq<UserRow>): string
  {
    "Showing " + NatToString(|shown|) + " of " + NatToString(|MockUsers|) + " users"
  }

  /** "No users found" is shown when the filtered list is empty. */
  predicate ShowsEmptyState(searchQuery: string)
  {
    |FilteredUsers(searchQuery)| == 0
  }

  /** What the page renders for the current user; it has no fallback. */
  function PageView(user: Option<User>): RoleGuard.View<()>
  {
    RoleGuard.Guard(user, [Admin, Manager], None)
  }

  /** The result is an order-preserving sub-list of the five users and keeps
      exactly the users whose name or email matches. */
  lemma FilteredUsersCharacterised(searchQuery: string, u: UserRow)
    ensures Seqs.IsSubsequence(FilteredUsers(searchQuery), MockUsers)
    ensures u in FilteredUsers(searchQuery) <==> u in MockUsers && Matches(u, ToLower(searchQuery))
  {
    Seqs.FilterIsSubsequence(MockUsers, v => Matches(v, ToLower(searchQuery)));
  }

  /** An empty query keeps all five users. */
  lemma EmptyQueryKeepsAll()
    ensures FilteredUsers("") == MockUsers
    ensures !ShowsEmptyState("")
  {
    assert ToLower("") == "";
    forall i | 0 <= i < |MockUsers|
      ensures Matches(MockUsers[i], "")
    {
      ContainsEmpty(ToLower(MockUsers[i].name));
    }
    Seqs.FilterKeepsAll(MockUsers, u => Matches(u, ""));
  }

  /** When every user is shown the caption reads "Showing 5 of 5 users", as it
      does for the empty query. */
  lemma CaptionWhenAllShown(shown: seq<UserRow>)
    requires |shown| == |MockUsers|
    ensures CountCaption(shown) == "Showing 5 of 5 users"
  {
    assert NatToString(5) == "5";
  }

  /** With an empty search box the page reads "Showing 5 of 5 users". */
  lemma EmptyQueryCaption()
    ensures CountCaption(FilteredUsers("")) == "Showing 5 of 5 users"
  {
    EmptyQueryKeepsAll();
    CaptionWhenAllShown(FilteredUsers(""));
  }

  /** A query and its upper-cased form give the same result. */
  lemma CaseInsensitive(searchQuery: string)
    ensures FilteredUsers(ToUpper(searchQuery)) == FilteredUsers(searchQuery)
  {
    LowerOfUpper(searchQuery);
  }

  /** The count never exceeds five, and the empty state appears exactly when no
      user matches. */
  lemma CountAndEmptyState(searchQuery: string)
    ensures |FilteredUsers(searchQuery)| <= |MockUsers|
    ensures ShowsEmptyState(searchQuery) <==>
      forall i :: 0 <= i < |MockUsers| ==> !Matches(MockUsers[i], ToLower(searchQuery))
  {
    if !ShowsEmptyState(searchQuery) {
      FilteredUsersCharacterised(searchQuery, FilteredUsers(searchQuery)[0]);
    }
  }

  /** The page's guard admits exactly the users who see the "Users" link in the sidebar. */
  lemma PageMatchesSidebarLink(u: User)
    ensures PageView(Some(u)).Children? <==> Sidebar.UsersLink in Sidebar.VisibleLinks(Some(u)).value
  {
    Sidebar.UsersLinkForAdminAndManager(u);
  }
}
