/**
 * The navigation bar of the dashboard: one button per tab the role may use, a
 * label naming the role, and a Logout button. It holds no state of its own;
 * everything is computed from its props.
 */
module Navbar {
  import opened Ui

  const TAB_CLASS := "px-3 py-1 rounded "
  const HIGHLIGHT := "bg-gray-200"
  const PLAIN := "text-gray-600"
  const LOGOUT_CLASS := "text-sm text-gray-600 hover:text-black"

  /** The rendered bar: the tab buttons left to right, the role label and the Logout button. */
  datatype Bar = Bar(tabs: seq<Button>, roleLabel: string, logout: Button)

  /** A tab button is drawn highlighted when it carries the grey background class. */
  predicate Highlighted(b: Button)
  {
    b.className == TAB_CLASS + HIGHLIGHT
  }

  function TabLabel(t: Tab): string
  {
    match t
    case Upload => "Upload"
    case Search => "Search"
    case Storage => "Storage"
    case Metrics => "Metrics"
  }

  /** One tab button: clicking it selects its own tab, and it is highlighted exactly when that tab is active. */
  function TabButton(tab: Tab, activeTab: Tab): (b: Button)
    ensures b.text == TabLabel(tab)
    ensures b.onClick == SelectTab(tab)
    ensures Highlighted(b) <==> tab == activeTab
  {
    var style := if activeTab == tab then HIGHLIGHT else PLAIN;
    assert TAB_CLASS + PLAIN != TAB_CLASS + HIGHLIGHT by {
      assert (TAB_CLASS + PLAIN)[|TAB_CLASS|] != (TAB_CLASS + HIGHLIGHT)[|TAB_CLASS|];
    }
    Button(TabLabel(tab), TAB_CLASS + style, SelectTab(tab))
  }

  /** The tabs offered to a role, left to right. */
  function OfferedTabs(role: Role): seq<Tab>
  {
    (if role == Internal then [Upload, Storage] else []) + [Search, Metrics]
  }

  /**
   * `Navbar({activeTab, setActiveTab, role, logout})`. Upload and Storage are
   * offered only to the internal role, Search and Metrics to both; each button
   * selects its own tab; the label names the role; Logout calls `logout`.
   */
  function Render(role: Role, activeTab: Tab): (bar: Bar)
    ensures |bar.tabs| == |OfferedTabs(role)|
    ensures forall i :: 0 <= i < |bar.tabs| ==> bar.tabs[i] == TabButton(OfferedTabs(role)[i], activeTab)
    ensures forall t :: SelectTab(t) in Clicks(bar.tabs) <==> t in OfferedTabs(role)
    ensures bar.roleLabel == if role == Internal then "Internal Analyst" else "External Auditor"
    ensures bar.logout.text == "Logout" && bar.logout.onClick == Logout
  {
    var offered := OfferedTabs(role);
    var tabs := seq(|offered|, i requires 0 <= i < |offered| => TabButton(offered[i], activeTab));
    assert forall t :: SelectTab(t) in Clicks(tabs) <==> t in offered by {
      forall t ensures SelectTab(t) in Clicks(tabs) <==> t in offered {
        if t in offered {
          var k :| 0 <= k < |offered| && offered[k] == t;
          assert Clicks(tabs)[k] == SelectTab(t);
        }
      }
    }
    var roleLabel := if role == Internal then "Internal Analyst" else "External Auditor";
    Bar(tabs, roleLabel, Button("Logout", LOGOUT_CLASS, Logout))
  }

  /** Upload and Storage are internal-only; Search and Metrics are offered to everyone. */
  lemma OfferedTabsByRole(role: Role, t: Tab)
    ensures t in OfferedTabs(role) <==> role == Internal || t == Search || t == Metrics
  {
  }

  /** No tab is offered twice. */
  lemma OfferedTabsDistinct(role: Role)
    ensures forall i, j :: 0 <= i < j < |OfferedTabs(role)| ==> OfferedTabs(role)[i] != OfferedTabs(role)[j]
  {
  }

  /**
   * Exactly the button of the active tab is highlighted: at most one button is,
   * and one is precisely when the active tab is offered to the role.
   */
  lemma {:induction false} OneHighlight(role: Role, activeTab: Tab)
    ensures var tabs := Render(role, activeTab).tabs;
            && (forall i, j :: 0 <= i < |tabs| && 0 <= j < |tabs| && Highlighted(tabs[i]) && Highlighted(tabs[j]) ==> i == j)
            && ((exists i :: 0 <= i < |tabs| && Highlighted(tabs[i])) <==> activeTab in OfferedTabs(role))
  {
    var tabs := Render(role, activeTab).tabs;
    var offered := OfferedTabs(role);
    OfferedTabsDistinct(role);
    if activeTab in offered {
      var k :| 0 <= k < |offered| && offered[k] == activeTab;
      assert Highlighted(tabs[k]);
    }
  }
}
