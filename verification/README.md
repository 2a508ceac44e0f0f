# Content-switching container, modelled in Dafny

The repository holds two iOS demo apps, ContentSwitcher and GlobalSearcher. Each is built
around a custom container view controller. The container holds a fixed list of child
view controllers and shows one of them. It switches to another child when an entry of
its bar-button menu is chosen, using a cross-dissolve transition. The same state machine
appears in three container classes:

- ContentSwitcher's `ContainerViewController`. It keeps the menu's check marks in step with
  the selection.
- GlobalSearcher's `SearchContainerViewController` in ContainerViewController.swift. Its menu
  never shows a check mark.
- The `SearchContainerViewController` redeclared in GlobalSearcher's ViewController.swift. Its
  menu is built in `init` with `.singleSelection` and the initial entry checked.

This project models that state machine as an immutable record with pure step functions.
It also models the root screens that open containers, because they are the only
producers of the indices the container traps on.

- `Outcomes` (outcomes.dfy): `Option`, and `Outcome`, which is either a value or a Swift trap
  (`Fault`).
- `Menus` (menus.dfy): the `compactMap`/`enumerated` construction of menu actions, the check
  states, `updateSelectedMenuItem` and the single `.on` write.
- `Containers` (containers.dfy): the container record and the steps shared by all three
  classes, whose code is identical. Children are identified by their position in the list,
  since every caller builds distinct instances. The record holds the children's titles, the
  recorded index, the current child (an optional position), the set of attached children
  (`addChild` done, `removeFromParent` not yet), the title, the menu, and a queue of pending
  `removeFromParent` completions. `Replace` attaches `to` at once and queues `from`.
  `Complete` fires one queued completion, in any order. `Drain` fires them all.
- `ContentSwitcher`, `GlobalSearcher`, `SearchViewController`: the per-class `init`, menu and
  `didSelectItem` differences.
- `ContentSwitcherRoot`, `GlobalSearcherRoot`, and the root part of `SearchViewController`: the
  table rows, buttons and menu callbacks that build containers.

Two behaviours of the code as written are stated as lemmas:

- `Menus.UntitledChildShiftsHandlers`: `compactMap` drops untitled children before
  `enumerated`, but the handler's index is used against the full list. So after an untitled
  child, an entry selects a different child from the one whose title it shows. No caller
  builds an untitled child.
- `Containers.OverlappingSwitchBackDetachesCurrent`: transitions are not serialised.
  Suppose the user switches A → B and then B → A before the first cross-dissolve completes.
  Once both transitions complete, the current child A is no longer attached. Without
  overlap, `Containers.SerialRunSettles` shows that exactly the current child is attached at
  rest. With or without overlap, `Containers.Drain` shows that no other child stays attached
  once every completion has fired.

## Model

| member | source | states |
|---|---|---|
| `Menus.Titles` | ContentSwitcher/ContainerViewController.swift:8-11 | The `compactMap` of titles is never longer than the child list. |
| `Menus.TitledPosition` | ContentSwitcher/ContainerViewController.swift:9-14 | Menu title k is the title of some child at position p ≥ k. This is the child that supplied it after nil titles were dropped. |
| `Menus.TitledPositionIncreasing` | ContentSwitcher/ContainerViewController.swift:9-12 | Titles keep the children's order: a later menu entry comes from a later child. |
| `Menus.TitledChildrenCovered` | ContentSwitcher/ContainerViewController.swift:8-11 | `compactMap` drops only nil titles: every titled child supplies one of the menu's titles. |
| `Menus.AllTitledKeepsPositions` | ContentSwitcher/ContainerViewController.swift:8-18 | If every child has a title, the menu has one entry per child, and entry k shows child k's title. |
| `Menus.Actions` | ContentSwitcher/ContainerViewController.swift:8-18 | There is one action per titled child, in list order, and action k's handler passes k. The menu is no longer than the child list. Only the requested position starts checked, and only when it is within the menu. |
| `Menus.UntitledChildShiftsHandlers` | ContentSwitcher/ContainerViewController.swift:10-16 | With an untitled first child, the single entry shows child 1's title but passes position 0, the untitled child. |
| `Menus.UpdateSelectedMenuItem` | ContentSwitcher/ContainerViewController.swift:81-87 | Afterwards the entry at the index is the only checked one. If the index is outside the menu, no entry is checked. Labels and handlers are unchanged. |
| `Menus.SetOn` | ContentSwitcher/ContainerViewController.swift:95-97 | Checks the entry at the index and changes nothing else. An index outside the menu traps (Swift array subscript). |
| `Menus.CheckedDeterminesActions` | ContentSwitcher/ContainerViewController.swift:84 | Two menus with the same entries and the same checked positions are identical, because check states are all that the updates write. |
| `ContentSwitcher.MakeMenu` | ContentSwitcher/ContainerViewController.swift:4-28 | Builds a "Colors" menu without `.singleSelection`. Entries follow the titled children, and no entry is checked. |
| `ContentSwitcher.Init` | ContentSwitcher/ContainerViewController.swift:39-60 | Records the index, attaches nothing and sets no title. Only the menu entry at `initialIndex` is checked, and none if the index is outside the menu. Never traps. |
| `Containers.SetCurrent` | ContentSwitcher/ContainerViewController.swift:104-119 | Makes the child current and attached, copies its title, and leaves the other children's attachment alone. On an empty container, exactly that child is attached. |
| `Containers.ViewDidLoad` | ContentSwitcher/ContainerViewController.swift:71-79 | Traps exactly when the recorded index is outside the child list. Otherwise the child at that index becomes current, attached and the title source. A fresh container then has exactly that child attached. |
| `Containers.Replace` | ContentSwitcher/ContainerViewController.swift:140-173 | Replacing a child with itself changes nothing. Otherwise `to` becomes current, the title source and attached at once. `from` stays attached with its removal queued, and nothing else changes. This keeps the no-leftover invariant `Tidy`. The same code is at GlobalSearcher/ContainerViewController.swift:141-173 and GlobalSearcher/ViewController.swift:115-147. |
| `Containers.Complete` | ContentSwitcher/ContainerViewController.swift:167-172 | Firing queued completion j detaches exactly that child and dequeues it. Current child, title and menu are unchanged, and `Tidy` is kept. |
| `Containers.Drain` | ContentSwitcher/ContainerViewController.swift:155-172 | After every queued completion fires, nothing is pending, and exactly the queued children have been detached. Under `Tidy`, no child other than the current one is then attached, whether or not transitions overlapped. |
| `Containers.Select` | GlobalSearcher/ContainerViewController.swift:96-103 | This is GlobalSearcher's `didSelectItem`. It traps on an index outside the list, then traps if there is no current child. Re-selecting the current child is a no-op. Otherwise the selected child is current, titled and attached, and the old one's removal is queued. The recorded index and the menu are untouched. The same code is at GlobalSearcher/ViewController.swift:70-77. |
| `Containers.SelectAndSettle` | GlobalSearcher/ContainerViewController.swift:96-172 | A selection followed by every pending completion, older ones included, leaves nothing pending and the selected child current, with menu and recorded index unchanged. From a settled container, exactly the selected child is attached. |
| `Containers.SerialRun` | GlobalSearcher/ContainerViewController.swift:96-103 | A run of selections that does not trap keeps the child list, the menu and the recorded index. After at least one selection, nothing is left pending. |
| `Containers.SerialRunSettles` | GlobalSearcher/ContainerViewController.swift:96-172 | Select in-range indices one at a time, letting each transition complete before the next. Nothing traps, exactly the last selected child is attached and current, and the menu is unchanged. |
| `Containers.OverlappingSwitchBackDetachesCurrent` | ContentSwitcher/ContainerViewController.swift:145-172 | Switch A → B and back to A before the first transition completes. After both complete, A is current but no child is attached. |
| `ContentSwitcher.DidSelectItem` | ContentSwitcher/ContainerViewController.swift:89-102 | Trap order: an index outside the child list traps first, then one outside the menu, then a missing current child. On success the index is recorded, its entry is the only checked one, and the switch is the one `Select` makes. Whatever the state before, a successful call leaves the recorded index, current child and single checked entry in agreement (`Synced`). |
| `ContentSwitcher.LoadSettlesSynced` | ContentSwitcher/ContainerViewController.swift:39-79 | For titled children and an index in range, `init` then `viewDidLoad` attaches that child alone, titles the container after it, and leaves the menu one-hot at the same index. |
| `ContentSwitcher.ReselectIsNoOp` | ContentSwitcher/ContainerViewController.swift:89-102 | Re-selecting the current child returns the container unchanged, menu included. |
| `ContentSwitcher.MenuSelectionNeverTraps` | ContentSwitcher/ContainerViewController.swift:51-55 | Once a child is shown, any entry of the container's own menu switches to the child at its position without trapping, and the menu still lists the children. |
| `ContentSwitcherRoot.ContainerChildren` | ContentSwitcher/RootViewController.swift:8-16 | Seven colour screens in palette order, each titled with its colour's name. |
| `ContentSwitcherRoot.NumberOfRows` | ContentSwitcher/RootViewController.swift:67-69 | One table row per child: seven rows. |
| `ContentSwitcherRoot.ShowContainer` | ContentSwitcher/RootViewController.swift:41-45 | Opens a fresh container over the root's children at the given index, with nothing attached yet. Row selection and the root menu callback both call it. |
| `ContentSwitcherRoot.RootMenu` | ContentSwitcher/RootViewController.swift:27-39 | The root menu lists the same children, one entry per table row. |
| `ContentSwitcherRoot.RowSelectionLoads` | ContentSwitcher/RootViewController.swift:84-88 | Selecting row r opens a container at index r. Every table row (fewer than `NumberOfRows`) opens a container whose `viewDidLoad` does not trap. It shows that colour alone, titles itself after it, and checks only its entry. |
| `ContentSwitcherRoot.MenuSelectionLoads` | ContentSwitcher/RootViewController.swift:30-36 | Root menu entry i opens a container at index i. Every root menu entry opens a container whose `viewDidLoad` does not trap and which shows the entry's child, in sync. |
| `GlobalSearcher.MakeSearchViewControllers` | GlobalSearcher/ContainerViewController.swift:34-42 | Exactly five titled screens, in the order Jobs, Members, Companies, News, Messages. |
| `GlobalSearcher.MakeMenu` | GlobalSearcher/ContainerViewController.swift:5-32 | Builds a "Search Domains" menu without `.singleSelection`. Entries follow the titled children, and every entry is created unchecked. |
| `GlobalSearcher.Init` | GlobalSearcher/ContainerViewController.swift:57-75 | Records the index, attaches nothing, and checks no menu entry. |
| `GlobalSearcher.MenuNeverChecked` | GlobalSearcher/ContainerViewController.swift:9-31 | No menu entry is checked after loading, nor after any run of selections that does not trap. |
| `GlobalSearcherRoot.OpenSearch` | GlobalSearcher/RootViewController.swift:6-29 | Does nothing if the root is gone. Otherwise builds a container over a fresh five-screen list at index 0. |
| `GlobalSearcherRoot.RootMenu` | GlobalSearcher/RootViewController.swift:41-55 | The root's menu has five entries, built over its own fresh list. |
| `GlobalSearcherRoot.OnMenuSelect` | GlobalSearcher/RootViewController.swift:46-53 | Does nothing if the root is gone. Otherwise opens exactly GlobalSearcher's freshly initialised container over a second fresh `makeSearchViewControllers()` list at the chosen index, with nothing attached or shown yet. |
| `GlobalSearcherRoot.OpenSearchLoads` | GlobalSearcher/RootViewController.swift:23-26 | The button's container loads the job search alone, without trapping. |
| `GlobalSearcherRoot.MenuSelectionLoads` | GlobalSearcher/RootViewController.swift:44-51 | Both lists hold the same five screens. So every root menu position is in range, and the container loads the matching screen. |
| `SearchViewController.Init` | GlobalSearcher/ViewController.swift:19-53 | Builds a single-selection "Search Domains" menu. Entry k starts checked iff k is `initialIndex`, so at most one entry is checked. Entry k's handler selects k, and nothing is attached. |
| `SearchViewController.OpenSearch` | GlobalSearcher/ViewController.swift:253-263 | The root's button opens a container over the five search screens at index 3. |
| `SearchViewController.OpenSearchLoads` | GlobalSearcher/ViewController.swift:254-263 | Index 3 is in range. The container loads "Search News" alone, and its menu shows only entry 3 checked. |

## Left out

- View hierarchy and Auto Layout: `addSubview`, `bringSubviewToFront`, `activateConstraints`
  and `deactivateConstraints` are not modelled. They have no effect on the state above.
  `deactivateConstraints` builds fresh constraint objects, so it does not undo the earlier
  activation.
- The cross-dissolve animation and its `TimeInterval` duration are not modelled. A transition
  is "`to` attached now, removal of `from` queued". UIKit's own insertion and removal of the
  two views is not modelled either.
- `didMove(toParent:)` notifications, and the `guard let childView = childViewController.view`
  trap, are not modelled. A view controller's `view` is always loaded on access.
- All logging, including the `transition` and `addChild` overrides, which only log.
- Child screens (`ColorViewController`, `LoggingViewController`, `JobSearchViewController`, the
  SwiftUI views) are opaque titled positions. Colour names come from the platform's colour
  naming (`accessibilityName`), so they are the parameter `name`.
- Weak references and `deinit`. The current child is an optional position. It is never
  cleared, because the container's own list keeps every child alive. The GlobalSearcher
  root's `[weak self]` is modelled as a `rootAlive` flag. A deallocated root or container
  behind the other `[weak self]` captures is not modelled. These are the ContentSwitcher root's
  menu callback, ViewController.swift's button, and the containers' own menu handlers.
- `show(_:sender:)`, navigation and presentation. A root's action is modelled as the container
  it builds; its `viewDidLoad` is the next step.
- UIKit's own handling of `.singleSelection` menus, which checks the tapped entry itself. That
  behaviour lives in UIKit, not in this code. The model keeps only the states the code writes.
- ContentSwitcher's root passes the same child instances to every container it opens. UIKit's
  handling of a child re-parented into a second container is not modelled. Each container
  is modelled on its own.
- UIKit's own preconditions on `transition(from:to:)` are not modelled. After an overlapping
  switch-back (`Containers.OverlappingSwitchBackDetachesCurrent`) the current child is no
  longer attached, and the model lets the next selection transition from it anyway. UIKit
  expects `from` to still be a child of the container.
- Scene bootstrap (`SceneDelegate`), table-cell styling and navigation-bar appearance.
