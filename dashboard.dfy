/**
 * The dashboard shown once a role is chosen: it owns the `activeTab` state,
 * draws the navigation bar, and renders the page that belongs to the active
 * tab, provided the role may see it.
 */
module Dashboard {
  import opened Ui
  import Navbar

  /** The content pages; the search page is told which role is searching. */
  datatype Page = UploadPage | SearchPage(role: Role) | StoragePage | MetricsPage

  /**
   * The four conditional page elements, in the order they are written. Upload
   * and Storage need the internal role as well as their tab; Search and Metrics
   * only need their tab.
   */
  function Content(activeTab: Tab, role: Role): (pages: seq<Page>)
    ensures |pages| <= 1
    ensures UploadPage in pages <==> activeTab == Upload && role == Internal
    ensures StoragePage in pages <==> activeTab == Storage && role == Internal
    ensures MetricsPage in pages <==> activeTab == Metrics
    ensures (exists r :: SearchPage(r) in pages) <==> activeTab == Search
    ensures forall r :: SearchPage(r) in pages ==> r == role
  {
    (if activeTab == Upload && role == Internal then [UploadPage] else [])
    + (if activeTab == Search then [SearchPage(role)] else [])
    + (if activeTab == Storage && role == Internal then [StoragePage] else [])
    + (if activeTab == Metrics then [MetricsPage] else [])
  }

  /** Every tab the navigation bar offers has a page to show. */
  lemma OfferedTabHasPage(role: Role, activeTab: Tab)
    requires SelectTab(activeTab) in Clicks(Navbar.Render(role, activeTab).tabs)
    ensures |Content(activeTab, role)| == 1
  {
    Navbar.OfferedTabsByRole(role, activeTab);
  }

  /** An external auditor on the initial tab sees the navigation bar and no page. */
  lemma ExternalStartsBlank()
    ensures Content(Upload, External) == []
    ensures SelectTab(Upload) !in Clicks(Navbar.Render(External, Upload).tabs)
  {
  }

  /**
   * In every state a click can reach, the content area is empty only for an
   * external auditor on the initial Upload tab.
   */
  lemma BlankOnlyOnExternalUpload(role: Role, activeTab: Tab)
    requires role == External ==> activeTab != Storage
    ensures Content(activeTab, role) == [] <==> role == External && activeTab == Upload
  {
  }

  /** The dashboard component instance: the role prop it was given and its `activeTab` state. */
  class Dashboard {
    const role: Role
    var activeTab: Tab

    /**
     * The states reachable by clicking: an external auditor has no Storage
     * button, so never reaches that tab. This is what `BlankOnlyOnExternalUpload`
     * needs: without it an external auditor on Storage would also see no page.
     */
    ghost predicate Valid()
      reads this
    {
      role == External ==> activeTab != Storage
    }

    /** Mounting: `useState("upload")`. */
    constructor(role: Role)
      ensures this.role == role && activeTab == Upload
      ensures Valid()
    {
      this.role := role;
      activeTab := Upload;
    }

    /** The navigation bar the dashboard draws over its content. */
    function Bar(): Navbar.Bar
      reads this
    {
      Navbar.Render(role, activeTab)
    }

    /** The pages under the bar. */
    function Pages(): seq<Page>
      reads this
    {
      Content(activeTab, role)
    }

    /** In a reachable state the page area is blank only for an external auditor on Upload. */
    method Blank() returns (blank: bool)
      requires Valid()
      ensures blank <==> role == External && activeTab == Upload
    {
      blank := Content(activeTab, role) == [];
      BlankOnlyOnExternalUpload(role, activeTab);
    }

    /** `setActiveTab(t)`, as called by one of the bar's tab buttons. */
    method SetActiveTab(t: Tab)
      requires Valid()
      requires SelectTab(t) in Clicks(Bar().tabs)
      modifies this
      ensures activeTab == t
      ensures Valid()
      ensures |Pages()| == 1
    {
      Navbar.OfferedTabsByRole(role, t);
      activeTab := t;
      OfferedTabHasPage(role, t);
    }
  }
}
