/**
 * The view state of `App`: the theme, the current view, the selected project and the
 * technology filter, the two lists derived from the data (`allTechnologies`,
 * `filteredProjects`) and which screen `renderContent` shows.
 */
module AppView {
  import opened Wrappers
  import opened JsArrays
  import opened Types

  /** The filter value that shows every project. */
  const AllFilter := "Todos"

  /** The data `App` shows before anything is loaded. */
  const EmptyPortfolio := PortfolioData(EmptyProfile, [], [], [], [], [], [])

  // ---------------------------------------------------------------------------------------
  // allTechnologies
  // ---------------------------------------------------------------------------------------

  /** `projects.flatMap(p => p.technologies)`. */
  function FlatTechnologies(projects: seq<Project>): (r: seq<string>)
    ensures forall t :: t in r <==> exists i :: 0 <= i < |projects| && t in projects[i].technologies
  {
    if projects == [] then []
    else
      var rest := FlatTechnologies(projects[1..]);
      assert forall t :: t in rest <==> exists i :: 1 <= i < |projects| && t in projects[i].technologies by {
        forall t | t in rest ensures exists i :: 1 <= i < |projects| && t in projects[i].technologies {
          var i :| 0 <= i < |projects[1..]| && t in projects[1..][i].technologies;
          assert projects[i + 1] == projects[1..][i];
        }
        forall t, i | 1 <= i < |projects| && t in projects[i].technologies ensures t in rest {
          assert projects[1..][i - 1] == projects[i];
        }
      }
      projects[0].technologies + rest
  }

  /** `['Todos', ...Array.from(new Set(flatMap(technologies))).sort()]`. */
  function AllTechnologies(projects: seq<Project>): (r: seq<string>)
    ensures |r| >= 1 && r[0] == AllFilter
  {
    [AllFilter] + Sort(Dedup(FlatTechnologies(projects)))
  }

  /**
   * After "Todos", the filter list holds every technology of some project, each once, in
   * strictly ascending order, and nothing else.
   */
  lemma AllTechnologiesSpec(projects: seq<Project>)
    ensures var tail := AllTechnologies(projects)[1..];
      && StrictlySorted(tail)
      && (forall t :: t in tail <==> exists i :: 0 <= i < |projects| && t in projects[i].technologies)
  {
    var d := Dedup(FlatTechnologies(projects));
    SortDistinct(d);
    assert AllTechnologies(projects)[1..] == Sort(d);
  }

  // ---------------------------------------------------------------------------------------
  // filteredProjects
  // ---------------------------------------------------------------------------------------

  /** `projects.filter(p => p.technologies.includes(tech))`. */
  function WithTechnology(projects: seq<Project>, tech: string): (r: seq<Project>)
    ensures forall p :: p in r <==> p in projects && tech in p.technologies
    ensures |r| <= |projects|
  {
    if projects == [] then []
    else (if tech in projects[0].technologies then [projects[0]] else []) + WithTechnology(projects[1..], tech)
  }

  /** The filter keeps the projects it keeps in their original order. */
  lemma {:induction false} WithTechnologyInOrder(projects: seq<Project>, tech: string) returns (idx: seq<nat>)
    ensures SubsequenceAt(WithTechnology(projects, tech), projects, idx)
    ensures forall i :: 0 <= i < |projects| && tech in projects[i].technologies ==> i in idx
  {
    if projects == [] {
      idx := [];
    } else {
      var tail := projects[1..];
      var rest := WithTechnologyInOrder(tail, tech);
      ShiftedSubsequence(WithTechnology(tail, tech), projects, tech, rest);
      var shifted := Shift(rest);
      if tech in projects[0].technologies {
        assert WithTechnology(projects, tech) == [projects[0]] + WithTechnology(tail, tech);
        ConsSubsequence(WithTechnology(tail, tech), projects, shifted);
        idx := [0] + shifted;
      } else {
        assert WithTechnology(projects, tech) == WithTechnology(tail, tech);
        idx := shifted;
      }
    }
  }

  /** The head of a list goes in front of a subsequence that skips it. */
  lemma ConsSubsequence(a: seq<Project>, b: seq<Project>, idx: seq<nat>)
    requires b != [] && SubsequenceAt(a, b, idx) && forall k :: 0 <= k < |idx| ==> idx[k] > 0
    ensures SubsequenceAt([b[0]] + a, b, [0] + idx)
  {
  }

  /**
   * A subsequence of the tail is a subsequence of the whole list at indices one higher,
   * and it still holds every project of the tail that has the technology.
   */
  lemma ShiftedSubsequence(a: seq<Project>, b: seq<Project>, tech: string, idx: seq<nat>)
    requires b != [] && SubsequenceAt(a, b[1..], idx)
    requires forall i :: 0 <= i < |b[1..]| && tech in b[1..][i].technologies ==> i in idx
    ensures SubsequenceAt(a, b, Shift(idx))
    ensures forall k :: 0 <= k < |idx| ==> Shift(idx)[k] > 0
    ensures forall i :: 1 <= i < |b| && tech in b[i].technologies ==> i in Shift(idx)
  {
    var shifted := Shift(idx);
    forall k | 0 <= k < |idx| ensures b[shifted[k]] == a[k] {
      assert b[1..][idx[k]] == b[idx[k] + 1];
    }
    forall i | 1 <= i < |b| && tech in b[i].technologies ensures i in shifted {
      assert b[1..][i - 1] == b[i];
      var k :| 0 <= k < |idx| && idx[k] == i - 1;
      assert shifted[k] == i;
    }
  }

  /** Every index one higher. */
  function Shift(ix: seq<nat>): (r: seq<nat>)
    ensures |r| == |ix| && forall k :: 0 <= k < |ix| ==> r[k] == ix[k] + 1
  {
    seq(|ix|, k requires 0 <= k < |ix| => ix[k] + 1)
  }

  /** `filteredProjects`: every project under "Todos", else those with the technology. */
  function FilteredProjects(projects: seq<Project>, activeTechFilter: string): (r: seq<Project>)
    ensures activeTechFilter == AllFilter ==> r == projects
    ensures activeTechFilter != AllFilter ==>
      forall p :: p in r <==> p in projects && activeTechFilter in p.technologies
  {
    if activeTechFilter == AllFilter then projects else WithTechnology(projects, activeTechFilter)
  }

  /** Whether a project is shown under a filter. */
  predicate Passes(project: Project, activeTechFilter: string) {
    activeTechFilter == AllFilter || activeTechFilter in project.technologies
  }

  /** The filtered list is the projects that pass the filter, in their original order. */
  lemma FilteredProjectsInOrder(projects: seq<Project>, activeTechFilter: string) returns (idx: seq<nat>)
    ensures SubsequenceAt(FilteredProjects(projects, activeTechFilter), projects, idx)
    ensures forall i :: 0 <= i < |projects| && Passes(projects[i], activeTechFilter) ==> i in idx
  {
    if activeTechFilter == AllFilter {
      idx := seq(|projects|, k requires 0 <= k < |projects| => k);
      assert forall i :: 0 <= i < |projects| ==> idx[i] == i;
    } else {
      idx := WithTechnologyInOrder(projects, activeTechFilter);
    }
  }

  // ---------------------------------------------------------------------------------------
  // renderContent
  // ---------------------------------------------------------------------------------------

  /** What `renderContent` draws, with the data each screen is given. */
  datatype Screen =
    | Detail(project: Project)
    | HomeScreen(profile: ProfileData, recent: seq<Project>)
    | AboutScreen(data: PortfolioData)
    | ProjectsScreen(filters: seq<string>, shown: seq<Project>)
    | ContactScreen(profile: ProfileData)

  function Min(a: int, b: int): int {
    if a <= b then a else b
  }

  /**
   * `renderContent`: the selected project's detail page whenever one is selected,
   * otherwise the page of the current view; the home page lists `projects.slice(0, 3)`.
   */
  function RenderContent(selectedProject: Option<Project>, currentView: ViewState,
                         data: PortfolioData, activeTechFilter: string): (r: Screen)
    ensures selectedProject.Some? <==> r.Detail?
    ensures selectedProject.Some? ==> r.project == selectedProject.value
    ensures r.HomeScreen? ==>
      |r.recent| == Min(3, |data.projects|) && r.recent == data.projects[..|r.recent|]
  {
    if selectedProject.Some? then Detail(selectedProject.value)
    else match currentView
      case Home => HomeScreen(data.profile, data.projects[..Min(3, |data.projects|)])
      case About => AboutScreen(data)
      case Projects => ProjectsScreen(AllTechnologies(data.projects), FilteredProjects(data.projects, activeTechFilter))
      case Contact => ContactScreen(data.profile)
  }

  /** Without a selection the page follows the current view. */
  lemma RenderFollowsView(currentView: ViewState, data: PortfolioData, activeTechFilter: string)
    ensures var r := RenderContent(None, currentView, data, activeTechFilter);
      && (r.HomeScreen? <==> currentView == Home)
      && (r.AboutScreen? <==> currentView == About)
      && (r.ProjectsScreen? <==> currentView == Projects)
      && (r.ContactScreen? <==> currentView == Contact)
  {
  }

  // ---------------------------------------------------------------------------------------
  // the state
  // ---------------------------------------------------------------------------------------

  /** `prev === 'light' ? 'dark' : 'light'`. */
  function Flip(t: Theme): (r: Theme)
    ensures r != t
  {
    if t == Light then Dark else Light
  }

  /** Toggling twice restores the theme. */
  lemma FlipTwice(t: Theme)
    ensures Flip(Flip(t)) == t
  {
  }

  /** The state hooks of `App`. */
  class AppState {
    var theme: Theme
    var currentView: ViewState
    var selectedProject: Option<Project>
    var activeTechFilter: string
    var data: PortfolioData

    /** The initial `useState` values. */
    constructor()
      ensures theme == Light && currentView == Home && selectedProject == None
      ensures activeTechFilter == AllFilter && data == EmptyPortfolio
    {
      theme := Light;
      currentView := Home;
      selectedProject := None;
      activeTechFilter := AllFilter;
      data := EmptyPortfolio;
    }

    /** The screen for the current state: the selected project's page, if any. */
    function Content(): (r: Screen)
      reads this
      ensures selectedProject.Some? ==> r == Detail(selectedProject.value)
      ensures selectedProject.None? ==> !r.Detail? && (r.HomeScreen? <==> currentView == Home)
    {
      RenderContent(selectedProject, currentView, data, activeTechFilter)
    }

    /** `toggleTheme`: light and dark swap; nothing else changes. */
    method ToggleTheme()
      modifies this
      ensures theme == Flip(old(theme))
      ensures currentView == old(currentView) && selectedProject == old(selectedProject)
      ensures activeTechFilter == old(activeTechFilter) && data == old(data)
    {
      theme := if theme == Light then Dark else Light;
    }

    /** `handleNavigate(view)`: go to `view`, drop the selection, reset the filter. */
    method HandleNavigate(view: ViewState)
      modifies this
      ensures selectedProject == None && currentView == view && activeTechFilter == AllFilter
      ensures theme == old(theme) && data == old(data)
      ensures view == Projects ==> Content() == ProjectsScreen(AllTechnologies(data.projects), data.projects)
      ensures view != Projects ==> !Content().Detail? && !Content().ProjectsScreen?
    {
      selectedProject := None;
      currentView := view;
      activeTechFilter := AllFilter;
    }

    /** A project card's `onClick={setSelectedProject}`: its detail page shows at once. */
    method SelectProject(project: Project)
      modifies this
      ensures selectedProject == Some(project) && Content() == Detail(project)
      ensures theme == old(theme) && currentView == old(currentView)
      ensures activeTechFilter == old(activeTechFilter) && data == old(data)
    {
      selectedProject := Some(project);
    }

    /** The detail page's `onBack`: the selection is dropped, so the current view shows again. */
    method Back()
      modifies this
      ensures selectedProject == None && !Content().Detail?
      ensures theme == old(theme) && currentView == old(currentView)
      ensures activeTechFilter == old(activeTechFilter) && data == old(data)
    {
      selectedProject := None;
    }

    /** A filter button's `setActiveTechFilter(tech)`. */
    method SetTechFilter(tech: string)
      modifies this
      ensures activeTechFilter == tech
      ensures theme == old(theme) && currentView == old(currentView)
      ensures selectedProject == old(selectedProject) && data == old(data)
    {
      activeTechFilter := tech;
    }

    /** `setData(result)` once the portfolio is loaded. */
    method SetData(loaded: PortfolioData)
      modifies this
      ensures data == loaded
      ensures theme == old(theme) && currentView == old(currentView)
      ensures selectedProject == old(selectedProject) && activeTechFilter == old(activeTechFilter)
    {
      data := loaded;
    }
  }
}
