/**
 * AdminDashboard: the active tab, the tab buttons and the content under
 * them; UserManagement's own admin gate decides what the "users" tab shows.
 */
module AdminDashboard {
  import opened Wrappers

  const UserListTab: string := "userlist"
  const AddUserTab: string := "adduser"
  const ManageTab: string := "users"

  /** What the tab area shows. */
  datatype Screen = UserListScreen | UserFormScreen | AccessDeniedScreen | ManagementScreen

  /** The tab buttons on display: the management tab only when hasRole('ADMIN') is truthy. */
  function Tabs(isAdmin: Option<bool>): (r: seq<string>)
    ensures |r| >= 2 && r[..2] == [UserListTab, AddUserTab]
    ensures ManageTab in r <==> isAdmin == Some(true)
  {
    if isAdmin == Some(true) then [UserListTab, AddUserTab, ManageTab] else [UserListTab, AddUserTab]
  }

  /** The content of a tab; every value other than the first two renders UserManagement, which refuses a non-admin. */
  function Content(tab: string, isAdmin: Option<bool>): (s: Screen)
    ensures s == UserListScreen <==> tab == UserListTab
    ensures s == UserFormScreen <==> tab == AddUserTab
    ensures s == AccessDeniedScreen <==> tab != UserListTab && tab != AddUserTab && isAdmin != Some(true)
    ensures s == ManagementScreen <==> tab != UserListTab && tab != AddUserTab && isAdmin == Some(true)
  {
    if tab == UserListTab then UserListScreen
    else if tab == AddUserTab then UserFormScreen
    else if isAdmin == Some(true) then ManagementScreen
    else AccessDeniedScreen
  }

  class Dashboard {
    var activeTab: string

    constructor ()
      ensures activeTab == UserListTab
    {
      activeTab := UserListTab;
    }

    /** A tab button was clicked. */
    method Select(tab: string)
      modifies this
      ensures activeTab == tab
    {
      activeTab := tab;
    }

    /** handleUserAdded: switches to the management tab whoever the caller is. */
    method HandleUserAdded()
      modifies this
      ensures activeTab == ManageTab
    {
      activeTab := ManageTab;
    }
  }

  /** A moderator who adds a user lands on a tab that only shows the access-denied view. */
  method ModeratorAddsUser(d: Dashboard, isAdmin: Option<bool>) returns (s: Screen)
    requires isAdmin != Some(true)
    modifies d
    ensures ManageTab !in Tabs(isAdmin)
    ensures s == AccessDeniedScreen && s == Content(d.activeTab, isAdmin)
  {
    d.HandleUserAdded();
    s := Content(d.activeTab, isAdmin);
  }
}
