/** The sidebar: its fixed links, the role filter that hides role-restricted
    links, and the exact-path active test. */
module Sidebar {
  import opened Wrappers
  import opened Types
  import Seqs

  datatype SidebarLink = SidebarLink(href: string, labelText: string, roles: Option<seq<UserRole>>)

  const UsersLink := SidebarLink("/users", "Users", Some([Admin, Manager]))

  const SidebarLinks: seq<SidebarLink> := [
    SidebarLink("/dashboard", "Dashboard", None),
    SidebarLink("/components", "Components", None),
    UsersLink,
    SidebarLink("/forms", "Dynamic Forms", None),
    SidebarLink("/profile", "Profile", None)]

  /** A link without `roles` is always shown; one with `roles` only to those roles. */
  predicate LinkVisible(link: SidebarLink, role: UserRole)
  {
    link.roles.None? || role in link.roles.value
  }

  /** The links rendered, or `None` when no user is signed in and the sidebar
      renders nothing. */
  function VisibleLinks(user: Option<User>): Option<seq<SidebarLink>>
  {
    if user.None? then None
    else Some(Seqs.Filter(SidebarLinks, link => LinkVisible(link, user.value.role)))
  }

  /** `location.pathname === href`. */
  predicate IsActive(pathname: string, href: string)
  {
    pathname == href
  }

  lemma NoUserRendersNothing()
    ensures VisibleLinks(None) == None
  {
  }

  /** The visible links are an order-preserving sub-list of the sidebar's links,
      and hold exactly the links the user's role may see. */
  lemma VisibleLinksFilter(u: User, link: SidebarLink)
    ensures Seqs.IsSubsequence(VisibleLinks(Some(u)).value, SidebarLinks)
    ensures link in VisibleLinks(Some(u)).value <==> link in SidebarLinks && LinkVisible(link, u.role)
  {
    Seqs.FilterIsSubsequence(SidebarLinks, l => LinkVisible(l, u.role));
  }

  /** "Users" is shown only to admins and managers; the other four links to everyone. */
  lemma UsersLinkForAdminAndManager(u: User)
    ensures UsersLink in VisibleLinks(Some(u)).value <==> u.role == Admin || u.role == Manager
    ensures forall i :: 0 <= i < |SidebarLinks| && i != 2 ==> SidebarLinks[i] in VisibleLinks(Some(u)).value
  {
    VisibleLinksFilter(u, UsersLink);
    assert SidebarLinks[2] == UsersLink;
  }

  /** The hrefs are distinct, so at most one link is active for any path. */
  lemma AtMostOneActive(pathname: string, i: nat, j: nat)
    requires i < |SidebarLinks| && j < |SidebarLinks|
    requires IsActive(pathname, SidebarLinks[i].href) && IsActive(pathname, SidebarLinks[j].href)
    ensures i == j
  {
  }
}
