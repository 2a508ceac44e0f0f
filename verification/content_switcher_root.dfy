/**
  ContentSwitcher's `RootViewController`: a table with one row per colour and a
  menu over the same colours, both of which open a container at the chosen index.
 */
module ContentSwitcherRoot {
  import opened Outcomes
  import opened Menus
  import opened Containers
  import ContentSwitcher

  /** The system colours the root offers, in table order. */
  datatype Color = Red | Orange | Yellow | Green | Blue | Indigo | Purple

  const Palette: seq<Color> := [Red, Orange, Yellow, Green, Blue, Indigo, Purple]

  /** `containerChildViewControllers`: one colour screen per palette entry, titled
      with the colour's name. The name comes from the platform's colour naming, so
      it is a parameter here. */
  function ContainerChildren(name: Color -> string): (children: seq<Option<string>>)
    ensures |children| == |Palette| == 7
    ensures AllTitled(children)
    ensures forall p :: 0 <= p < |children| ==> children[p] == Some(name(Palette[p]))
  {
    seq(|Palette|, p requires 0 <= p < |Palette| => Some(name(Palette[p])))
  }

  /** `tableView(_:numberOfRowsInSection:)`: one row per child. */
  function NumberOfRows(name: Color -> string): (n: nat)
    ensures n == |ContainerChildren(name)| == 7
  {
    |ContainerChildren(name)|
  }

  /** `showContainerViewController(selectedIndex:)`: a container over the root's own
      children, opened at `selectedIndex`. Both the table's row selection and the
      root menu's callback call it, with the row and the entry's position. */
  function ShowContainer(name: Color -> string, selectedIndex: int): (c: Container)
    ensures c.children == ContainerChildren(name) && c.selectedIndex == selectedIndex
    ensures c.current.None? && c.attached == {} && c.pending == []
  {
    ContentSwitcher.Init(ContainerChildren(name), selectedIndex)
  }

  /** The root's bar-button menu, built with the same `makeMenu` over the same children;
      entry `k`'s handler opens a container at `k`. */
  function RootMenu(name: Color -> string): (m: Menu)
    ensures Lists(m.actions, ContainerChildren(name))
    ensures |m.actions| == NumberOfRows(name)
  {
    AllTitledKeepsPositions(ContainerChildren(name));
    ContentSwitcher.MakeMenu(ContainerChildren(name))
  }

  /** `tableView(_:didSelectRowAt:)`: a table row always names a child, so the container it opens loads without trapping,
      shows that colour alone, titles itself after it and checks its menu entry. */
  lemma RowSelectionLoads(name: Color -> string, row: int)
    requires 0 <= row < NumberOfRows(name)
    ensures ViewDidLoad(ShowContainer(name, row)).Ok?
    ensures ViewDidLoad(ShowContainer(name, row)).value.current == Some(row)
    ensures ViewDidLoad(ShowContainer(name, row)).value.title == Some(name(Palette[row]))
    ensures Settled(ViewDidLoad(ShowContainer(name, row)).value)
    ensures ContentSwitcher.Synced(ViewDidLoad(ShowContainer(name, row)).value)
  {
    ContentSwitcher.LoadSettlesSynced(ContainerChildren(name), row);
  }

  /** The root menu's callback: an entry always names a child, so the container it opens loads the
      same way as one opened from the table. */
  lemma MenuSelectionLoads(name: Color -> string, k: int)
    requires 0 <= k < |RootMenu(name).actions|
    ensures ViewDidLoad(ShowContainer(name, RootMenu(name).actions[k].selects)).Ok?
    ensures ViewDidLoad(ShowContainer(name, RootMenu(name).actions[k].selects)).value.current == Some(k)
    ensures ContentSwitcher.Synced(ViewDidLoad(ShowContainer(name, RootMenu(name).actions[k].selects)).value)
  {
  }
}
