/**
  GlobalSearcher's `SearchContainerViewController` (in ContainerViewController.swift):
  the variant whose menu never shows a check mark and whose selection does not
  record the chosen index.
 */
module GlobalSearcher {
  import opened Outcomes
  import opened Menus
  import opened Containers

  /** The search screens, in the order the program lists them. */
  datatype SearchDomain = Jobs | Members | Companies | News | Messages

  const SearchDomains: seq<SearchDomain> := [Jobs, Members, Companies, News, Messages]

  /** The title each search screen sets on itself. */
  function DomainTitle(d: SearchDomain): string {
    match d
    case Jobs => "Search Jobs"
    case Members => "Search Members"
    case Companies => "Search Companies"
    case News => "Search News"
    case Messages => "Search Messages"
  }

  /** `makeSearchViewControllers`: a fresh list of the five search screens. */
  function MakeSearchViewControllers(): (children: seq<Option<string>>)
    ensures |children| == 5 && AllTitled(children)
    ensures children == [Some("Search Jobs"), Some("Search Members"), Some("Search Companies"),
                         Some("Search News"), Some("Search Messages")]
  {
    seq(|SearchDomains|, k requires 0 <= k < |SearchDomains| => Some(DomainTitle(SearchDomains[k])))
  }

  /** `makeMenu`: a "Search Domains" menu with one entry per titled child, every entry
      created unchecked and no `.singleSelection` option. */
  function MakeMenu(children: seq<Option<string>>): (m: Menu)
    ensures m.title == "Search Domains" && !m.singleSelection
    ensures Lists(m.actions, children)
    ensures Checked(m.actions) == {}
  {
    Menu("Search Domains", false, Actions(children, None))
  }

  /** `init(viewControllers:initialIndex:)`: nothing shown, nothing checked. */
  function Init(children: seq<Option<string>>, initialIndex: int): (c: Container)
    ensures c.children == children && c.selectedIndex == initialIndex
    ensures c.current.None? && c.attached == {} && c.pending == [] && c.title.None?
    ensures Lists(c.menu.actions, children)
    ensures Checked(c.menu.actions) == {}
  {
    New(children, initialIndex, MakeMenu(children))
  }

  /** No menu entry is ever checked: not after loading, and not after any run of
      selections that does not trap. */
  lemma MenuNeverChecked(children: seq<Option<string>>, initialIndex: int, indices: seq<int>)
    requires 0 <= initialIndex < |children|
    ensures ViewDidLoad(Init(children, initialIndex)).Ok?
    ensures Checked(ViewDidLoad(Init(children, initialIndex)).value.menu.actions) == {}
    ensures var r := SerialRun(ViewDidLoad(Init(children, initialIndex)).value, indices);
            r.Ok? ==> Checked(r.value.menu.actions) == {}
  {
  }
}
