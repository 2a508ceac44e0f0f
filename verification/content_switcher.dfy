/**
  ContentSwitcher's `ContainerViewController`: the variant that keeps its menu's
  check marks in step with the selected child.
 */
module ContentSwitcher {
  import opened Outcomes
  import opened Menus
  import opened Containers

  /** `makeMenu`: a "Colors" menu with one unchecked entry per titled child, entry
      `k` passing `k` to the selection callback. */
  function MakeMenu(children: seq<Option<string>>): (m: Menu)
    ensures m.title == "Colors" && !m.singleSelection
    ensures Lists(m.actions, children)
    ensures |m.actions| <= |children|
    ensures Checked(m.actions) == {}
  {
    Menu("Colors", false, Actions(children, None))
  }

  /** `init(viewControllers:initialIndex:)`: nothing is shown yet; the menu is built
      and its entry at `initialIndex` is the only one checked. Nothing traps here,
      whatever the index. */
  function Init(children: seq<Option<string>>, initialIndex: int): (c: Container)
    ensures c.children == children && c.selectedIndex == initialIndex
    ensures c.current.None? && c.attached == {} && c.pending == [] && c.title.None?
    ensures Lists(c.menu.actions, children)
    ensures Checked(c.menu.actions) == if 0 <= initialIndex < |c.menu.actions| then {initialIndex} else {}
  {
    var m := MakeMenu(children);
    New(children, initialIndex, UpdateSelectedMenuItem(m, initialIndex))
  }

  /** `didSelectItem(atIndex:)`: traps on an index outside the child list, records the
      index, checks only its menu entry (trapping when the menu has no such entry),
      traps without a current child, then replaces the current child. */
  function DidSelectItem(c: Container, index: int): (r: Outcome<Container>)
    ensures !InRange(c, index) ==> r == Trap(IndexOutOfRange(index))
    ensures InRange(c, index) && index >= |c.menu.actions| ==> r == Trap(MenuIndexOutOfRange(index))
    ensures InRange(c, index) && index < |c.menu.actions| && c.current.None? ==> r == Trap(MissingCurrentChild)
    ensures r.Ok? <==> InRange(c, index) && index < |c.menu.actions| && c.current.Some?
    ensures r.Ok? ==>
      && r.value.selectedIndex == index
      && Checked(r.value.menu.actions) == {index}
      && SameEntries(r.value.menu.actions, c.menu.actions)
      && r.value.current == Some(index)
      && r.value.title == (if c.current == Some(index) then c.title else c.children[index])
      && r.value.attached == c.attached + (if c.current == Some(index) then {} else {index})
      && r.value.pending == (if c.current == Some(index) then c.pending else c.pending + [c.current.value])
      && r.value.children == c.children
    ensures r.Ok? && Tidy(c) ==> Tidy(r.value)
    ensures r.Ok? ==> Synced(r.value)
  {
    if !InRange(c, index) then Trap(IndexOutOfRange(index))
    else
      var c1 := c.(selectedIndex := index, menu := UpdateSelectedMenuItem(c.menu, index));
      match SetOn(c1.menu, index)
      case Trap(f) => Trap(f)
      case Ok(m) => Select(c1.(menu := m), index)
  }

  /** The container's bookkeeping agrees with what it shows: the recorded index names
      the current child, and its menu entry is the only one checked. */
  predicate Synced(c: Container) {
    && c.current.Some?
    && c.current.value == c.selectedIndex
    && c.current.value < |c.children|
    && Checked(c.menu.actions) == {c.current.value}
  }

  /** Loading a container built over fully titled children at an index in range
      shows that child alone, with the menu one-hot at the same index. */
  lemma LoadSettlesSynced(children: seq<Option<string>>, initialIndex: int)
    requires AllTitled(children)
    requires 0 <= initialIndex < |children|
    ensures ViewDidLoad(Init(children, initialIndex)).Ok?
    ensures Settled(ViewDidLoad(Init(children, initialIndex)).value)
    ensures Synced(ViewDidLoad(Init(children, initialIndex)).value)
    ensures ViewDidLoad(Init(children, initialIndex)).value.title == children[initialIndex]
  {
    AllTitledKeepsPositions(children);
  }

  /** Re-selecting the current child changes nothing at all. */
  lemma ReselectIsNoOp(c: Container)
    requires Synced(c)
    ensures DidSelectItem(c, c.selectedIndex) == Ok(c)
  {
    var index := c.selectedIndex;
    var m1 := UpdateSelectedMenuItem(c.menu, index);
    CheckedDeterminesActions(m1.actions, c.menu.actions);
    assert m1 == c.menu;
    var m2 := SetOn(m1, index).value;
    CheckedDeterminesActions(m2.actions, c.menu.actions);
    assert m2 == c.menu;
  }

  /** Any entry of the container's own menu, chosen once the first child is shown,
      switches to the child at the entry's position without trapping. */
  lemma MenuSelectionNeverTraps(c: Container, k: int)
    requires Lists(c.menu.actions, c.children)
    requires c.current.Some?
    requires 0 <= k < |c.menu.actions|
    ensures DidSelectItem(c, c.menu.actions[k].selects).Ok?
    ensures DidSelectItem(c, c.menu.actions[k].selects).value.current == Some(k)
    ensures Lists(DidSelectItem(c, c.menu.actions[k].selects).value.menu.actions, c.children)
  {
  }
}
