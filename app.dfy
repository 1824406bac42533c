/**
 * The root component. It holds the chosen role (`null` until a role button is
 * clicked) and shows either the role selection screen or a dashboard for that
 * role; logging out returns to the selection screen and discards the
 * dashboard together with its tab state.
 */
module App {
  import opened Wrappers
  import opened Ui
  import Navbar
  import opened Dashboard

  const CHOOSE_INTERNAL := Button("Internal Analyst", "w-full mb-3 bg-black text-white py-2 rounded", ChooseRole(Internal))
  const CHOOSE_EXTERNAL := Button("External Auditor", "w-full border py-2 rounded", ChooseRole(External))

  /** What the root component renders. */
  datatype Screen =
    | RoleSelection(choices: seq<Button>)
    | DashboardScreen(role: Role, bar: Navbar.Bar, pages: seq<Page>)

  /** The buttons a screen offers, whose click handlers are the only ways to change state. */
  function ScreenActions(s: Screen): (actions: seq<Action>)
    ensures s.RoleSelection? ==> actions == Clicks(s.choices)
    ensures s.DashboardScreen? ==> actions == Clicks(s.bar.tabs) + [s.bar.logout.onClick]
  {
    match s
    case RoleSelection(choices) => Clicks(choices)
    case DashboardScreen(_, bar, _) => Clicks(bar.tabs) + [bar.logout.onClick]
  }

  /** The selection screen offers exactly the two roles, and nothing else. */
  lemma SelectionOffersBothRoles()
    ensures forall a :: a in ScreenActions(RoleSelection([CHOOSE_INTERNAL, CHOOSE_EXTERNAL])) <==>
                        a == ChooseRole(Internal) || a == ChooseRole(External)
  {
    assert Clicks([CHOOSE_INTERNAL, CHOOSE_EXTERNAL]) == [ChooseRole(Internal), ChooseRole(External)] by {
      assert [CHOOSE_INTERNAL, CHOOSE_EXTERNAL][1..] == [CHOOSE_EXTERNAL];
    }
  }

  /** A dashboard offers tab selection and Logout, never a role change. */
  lemma {:induction false} DashboardOffersNoRoleChange(role: Role, activeTab: Tab, a: Action)
    requires a in ScreenActions(DashboardScreen(role, Navbar.Render(role, activeTab), Content(activeTab, role)))
    ensures !a.ChooseRole?
    ensures a.SelectTab? ==> a.tab in Navbar.OfferedTabs(role)
  {
    var bar := Navbar.Render(role, activeTab);
    if a in Clicks(bar.tabs) {
      var i :| 0 <= i < |bar.tabs| && Clicks(bar.tabs)[i] == a;
      assert a == SelectTab(Navbar.OfferedTabs(role)[i]);
    }
  }

  class App {
    /** `useState(null)`: `None` stands for `null`. */
    var role: Option<Role>
    /** The mounted dashboard, present exactly while a role is chosen. */
    var dashboard: Dashboard?

    ghost predicate Valid()
      reads this, dashboard
    {
      && (role.None? <==> dashboard == null)
      && (dashboard != null ==> dashboard.role == role.value && dashboard.Valid())
    }

    constructor()
      ensures role == None
      ensures Valid()
    {
      role := None;
      dashboard := null;
    }

    /**
     * The render: the selection screen exactly while no role is chosen,
     * otherwise the dashboard, which receives the role (and `logout`, whose
     * button is the bar's Logout button).
     */
    function View(): (s: Screen)
      reads this, dashboard
      requires Valid()
      ensures s.RoleSelection? <==> role.None?
      ensures s.RoleSelection? ==> s.choices == [CHOOSE_INTERNAL, CHOOSE_EXTERNAL]
      ensures s.DashboardScreen? ==> s.role == role.value && s.bar.logout.onClick == Logout
    {
      if role.None? then RoleSelection([CHOOSE_INTERNAL, CHOOSE_EXTERNAL])
      else DashboardScreen(role.value, dashboard.Bar(), dashboard.Pages())
    }

    /**
     * A click on one of the buttons currently on screen. A role button sets the
     * role and mounts a fresh dashboard on the Upload tab; a tab button changes
     * only the dashboard's tab; Logout sets the role back to `null`.
     */
    method Click(a: Action)
      requires Valid()
      requires a in ScreenActions(View())
      modifies this, dashboard
      ensures Valid()
      ensures a.ChooseRole? ==>
                old(role) == None && role == Some(a.role) && fresh(dashboard) && dashboard.activeTab == Upload
      ensures a.SelectTab? ==>
                old(role).Some? && role == old(role) && dashboard == old(dashboard) && dashboard.activeTab == a.tab
                && |View().pages| == 1
      ensures a.Logout? ==> role == None && dashboard == null
    {
      match a
      case ChooseRole(r) =>
        SelectionOffersBothRoles();
        SetRole(r);
      case SelectTab(t) =>
        DashboardOffersNoRoleChange(role.value, dashboard.activeTab, a);
        SwitchTab(t);
      case Logout =>
        role := None;
        dashboard := null;
    }

    /** `setRole(r)` from the selection screen: the dashboard for `r` is mounted afresh. */
    method SetRole(r: Role)
      requires Valid() && role == None
      modifies this
      ensures Valid()
      ensures role == Some(r) && fresh(dashboard) && dashboard.activeTab == Upload
    {
      role := Some(r);
      dashboard := new Dashboard(r);
    }

    /** The dashboard's `setActiveTab(t)` for a tab its bar offers; the role is untouched. */
    method SwitchTab(t: Tab)
      requires Valid() && role.Some?
      requires t in Navbar.OfferedTabs(role.value)
      modifies dashboard
      ensures Valid()
      ensures dashboard.activeTab == t && |View().pages| == 1
    {
      assert SelectTab(t) in Clicks(dashboard.Bar().tabs);
      dashboard.SetActiveTab(t);
    }
  }

  /**
   * Choosing External lands on the Upload tab, which External may not see: the
   * dashboard shows its bar and an empty content area until a tab is clicked.
   */
  method ExternalFirstView() returns (s: Screen)
    ensures s.DashboardScreen? && s.role == External && s.pages == []
  {
    var app := new App();
    SelectionOffersBothRoles();
    app.Click(ChooseRole(External));
    s := app.View();
    ExternalStartsBlank();
  }
}
