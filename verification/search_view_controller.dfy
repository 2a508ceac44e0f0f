/**
  The `SearchContainerViewController` declared in GlobalSearcher's ViewController.swift:
  the variant that builds its menu in `init` with `.singleSelection` and the initial
  entry checked, together with that file's root, which opens it at the news search.
 */
module SearchViewController {
  import opened Outcomes
  import opened Menus
  import opened Containers
  import GlobalSearcher

  /** `init(viewControllers:initialIndex:)`: a single-selection "Search Domains" menu
      whose entry `k` starts checked exactly when `k` is `initialIndex`, so at most one
      entry starts checked; entry `k`'s handler selects `k`. Nothing is shown yet. */
  function Init(children: seq<Option<string>>, initialIndex: int): (c: Container)
    ensures c.children == children && c.selectedIndex == initialIndex
    ensures c.current.None? && c.attached == {} && c.pending == [] && c.title.None?
    ensures c.menu.title == "Search Domains" && c.menu.singleSelection
    ensures Lists(c.menu.actions, children)
    ensures Checked(c.menu.actions) == if 0 <= initialIndex < |c.menu.actions| then {initialIndex} else {}
    ensures |Checked(c.menu.actions)| <= 1
  {
    New(children, initialIndex, Menu("Search Domains", true, Actions(children, Some(initialIndex))))
  }

  /** The root's button: a container over the five search screens, opened at 3. */
  function OpenSearch(): (c: Container)
    ensures c.children == GlobalSearcher.MakeSearchViewControllers() && c.selectedIndex == 3
  {
    Init(GlobalSearcher.MakeSearchViewControllers(), 3)
  }

  /** Index 3 is in range: the container loads the news search alone, titles itself
      after it, and its menu shows that entry, and only it, checked. */
  lemma OpenSearchLoads()
    ensures ViewDidLoad(OpenSearch()).Ok?
    ensures ViewDidLoad(OpenSearch()).value.current == Some(3)
    ensures ViewDidLoad(OpenSearch()).value.title == Some("Search News")
    ensures Settled(ViewDidLoad(OpenSearch()).value)
    ensures Checked(ViewDidLoad(OpenSearch()).value.menu.actions) == {3}
  {
  }
}
