/**
  GlobalSearcher's `RootViewController` (in RootViewController.swift): an "Open Search"
  button and a search menu, each of which opens a search container.
 */
module GlobalSearcherRoot {
  import opened Outcomes
  import opened Menus
  import opened Containers
  import opened GlobalSearcher

  /** The button's action: nothing when the root is gone (its `[weak self]` is nil),
      otherwise a container over a fresh list of search screens, opened at 0. */
  function OpenSearch(rootAlive: bool): (r: Option<Container>)
    ensures r.Some? <==> rootAlive
    ensures r.Some? ==> r.value == GlobalSearcher.Init(MakeSearchViewControllers(), 0)
  {
    if rootAlive then Some(GlobalSearcher.Init(MakeSearchViewControllers(), 0)) else None
  }

  /** The root's search menu, built over its own fresh list of search screens. */
  function RootMenu(): (m: Menu)
    ensures Lists(m.actions, MakeSearchViewControllers())
    ensures |m.actions| == 5
  {
    AllTitledKeepsPositions(MakeSearchViewControllers());
    GlobalSearcher.MakeMenu(MakeSearchViewControllers())
  }

  /** The menu's selection callback: nothing when the root is gone, otherwise a
      container over a second fresh list, opened at the chosen position. */
  function OnMenuSelect(rootAlive: bool, index: int): (r: Option<Container>)
    ensures r.Some? <==> rootAlive
    ensures r.Some? ==> r.value == GlobalSearcher.Init(MakeSearchViewControllers(), index)
    ensures r.Some? ==> r.value.selectedIndex == index && r.value.attached == {} && r.value.current.None?
  {
    if rootAlive then Some(GlobalSearcher.Init(MakeSearchViewControllers(), index)) else None
  }

  /** The button's container loads the job search without trapping. */
  lemma OpenSearchLoads()
    ensures OpenSearch(true).Some?
    ensures ViewDidLoad(OpenSearch(true).value).Ok?
    ensures ViewDidLoad(OpenSearch(true).value).value.current == Some(0)
    ensures ViewDidLoad(OpenSearch(true).value).value.title == Some("Search Jobs")
    ensures Settled(ViewDidLoad(OpenSearch(true).value).value)
  {
  }

  /** The menu's list and the container's list hold the same five screens, so every
      menu position is in range for the container, which loads the matching screen. */
  lemma MenuSelectionLoads(k: int)
    requires 0 <= k < |RootMenu().actions|
    ensures OnMenuSelect(true, RootMenu().actions[k].selects).Some?
    ensures ViewDidLoad(OnMenuSelect(true, RootMenu().actions[k].selects).value).Ok?
    ensures ViewDidLoad(OnMenuSelect(true, RootMenu().actions[k].selects).value).value.current == Some(k)
    ensures ViewDidLoad(OnMenuSelect(true, RootMenu().actions[k].selects).value).value.title
            == Some(DomainTitle(SearchDomains[k]))
  {
  }
}
