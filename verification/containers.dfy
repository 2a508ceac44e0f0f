/**
  The content-switching container shared by the three container classes: a fixed
  list of children, the current child, the children attached to the container,
  the container's title, its menu, and the queue of `removeFromParent` calls
  waiting for their cross-dissolve to complete.
 */
module Containers {
  import opened Outcomes
  import opened Menus

  /** A container's state. Children are identified by their position in `children`,
      which holds each child's `title`. */
  datatype Container = Container(
    children: seq<Option<string>>,   // `viewControllers`, fixed at construction
    selectedIndex: int,              // `initialViewControllerIndex`
    current: Option<nat>,            // `currentViewController`
    attached: set<nat>,              // children added with `addChild` and not yet removed
    title: Option<string>,           // the container's own `title`
    menu: Menu,                      // the bar button's menu
    pending: seq<nat>)               // `from` children whose transition has not completed

  /** A freshly initialised container: nothing attached, no current child, no title. */
  function New(children: seq<Option<string>>, initialIndex: int, menu: Menu): Container {
    Container(children, initialIndex, None, {}, None, menu, [])
  }

  predicate InRange(c: Container, index: int) {
    0 <= index < |c.children|
  }

  /** The children whose removal is still queued. */
  function Queued(c: Container): set<nat> {
    set p | p in c.pending
  }

  /** Nothing is attached except the current child and children whose removal is queued. */
  predicate Tidy(c: Container) {
    forall a :: a in c.attached ==> c.current == Some(a) || a in c.pending
  }

  /** At rest with exactly the current child attached. */
  predicate Settled(c: Container) {
    && c.current.Some?
    && c.current.value < |c.children|
    && c.pending == []
    && c.attached == {c.current.value}
  }

  /** `setCurrentViewController`: the child becomes current and attached, and its
      title is forwarded to the container. */
  function SetCurrent(c: Container, k: nat): (r: Container)
    requires k < |c.children|
    ensures r.current == Some(k) && r.title == c.children[k]
    ensures k in r.attached
    ensures forall x :: x != k ==> (x in r.attached <==> x in c.attached)
    ensures r.pending == c.pending && r.menu == c.menu
    ensures r.children == c.children && r.selectedIndex == c.selectedIndex
    ensures c.attached == {} && c.pending == [] ==> Settled(r)
  {
    c.(title := c.children[k], current := Some(k), attached := c.attached + {k})
  }

  /** `viewDidLoad`: shows the child at the recorded index, trapping when the index
      lies outside the child list. */
  function ViewDidLoad(c: Container): (r: Outcome<Container>)
    ensures r.Trap? <==> !InRange(c, c.selectedIndex)
    ensures r.Trap? ==> r.fault == IndexOutOfRange(c.selectedIndex)
    ensures r.Ok? ==>
      && r.value.current == Some(c.selectedIndex)
      && r.value.title == c.children[c.selectedIndex]
      && r.value.attached == c.attached + {c.selectedIndex}
      && r.value.pending == c.pending
      && r.value.children == c.children && r.value.menu == c.menu
      && r.value.selectedIndex == c.selectedIndex
    ensures r.Ok? && c.current.None? && c.attached == {} && c.pending == [] ==> Settled(r.value)
  {
    if InRange(c, c.selectedIndex) then Ok(SetCurrent(c, c.selectedIndex))
    else Trap(IndexOutOfRange(c.selectedIndex))
  }

  /** `replace(_:with:)`: nothing happens when `from` and `to` are the same child.
      Otherwise `to` becomes current, attached and the source of the title at once,
      while `from` stays attached until its queued removal completes. */
  function Replace(c: Container, from: nat, to: nat): (r: Container)
    requires to < |c.children|
    ensures from == to ==> r == c
    ensures from != to ==>
      && r.current == Some(to)
      && r.title == c.children[to]
      && to in r.attached
      && (forall x :: x != to ==> (x in r.attached <==> x in c.attached))
      && r.pending == c.pending + [from]
      && r.children == c.children && r.menu == c.menu && r.selectedIndex == c.selectedIndex
    ensures Tidy(c) && c.current == Some(from) ==> Tidy(r)
  {
    if from == to then c
    else c.(title := c.children[to], current := Some(to), attached := c.attached + {to},
            pending := c.pending + [from])
  }

  /** The completion of queued transition `j`: `fromViewController.removeFromParent()`.
      Any queued completion may fire; transitions are not assumed to finish in order. */
  function Complete(c: Container, j: nat): (r: Container)
    requires j < |c.pending|
    ensures c.pending[j] !in r.attached
    ensures forall x :: x != c.pending[j] ==> (x in r.attached <==> x in c.attached)
    ensures multiset(r.pending) + multiset{c.pending[j]} == multiset(c.pending)
    ensures r.current == c.current && r.title == c.title && r.menu == c.menu
    ensures r.children == c.children && r.selectedIndex == c.selectedIndex
    ensures Tidy(c) ==> Tidy(r)
  {
    var r := c.(attached := c.attached - {c.pending[j]},
                pending := c.pending[..j] + c.pending[j + 1..]);
    assert c.pending == c.pending[..j] + [c.pending[j]] + c.pending[j + 1..];
    assert forall x :: x != c.pending[j] && x in c.pending ==> x in multiset(r.pending);
    r
  }

  /** Lets every queued completion fire, oldest first. Once they all have, no child
      but the current one is left attached. */
  function Drain(c: Container): (r: Container)
    ensures r.pending == []
    ensures r.attached == c.attached - Queued(c)
    ensures r.current == c.current && r.title == c.title && r.menu == c.menu
    ensures r.children == c.children && r.selectedIndex == c.selectedIndex
    ensures Tidy(c) ==> forall a :: a in r.attached ==> c.current == Some(a)
    decreases |c.pending|
  {
    if c.pending == [] then c
    else
      var c1 := Complete(c, 0);
      assert c1.pending == c.pending[1..];
      assert Queued(c) == {c.pending[0]} + Queued(c1);
      Drain(c1)
  }

  /** `didSelectItem(atIndex:)` of both GlobalSearcher containers, and the tail of the
      ContentSwitcher one: trap on an index outside the list, trap without a current
      child, otherwise replace the current child with the selected one. */
  function Select(c: Container, index: int): (r: Outcome<Container>)
    ensures !InRange(c, index) ==> r == Trap(IndexOutOfRange(index))
    ensures InRange(c, index) && c.current.None? ==> r == Trap(MissingCurrentChild)
    ensures r.Ok? <==> InRange(c, index) && c.current.Some?
    ensures r.Ok? ==>
      && r.value.current == Some(index)
      && r.value.title == (if c.current == Some(index) then c.title else c.children[index])
      && r.value.attached == c.attached + (if c.current == Some(index) then {} else {index})
      && r.value.pending == (if c.current == Some(index) then c.pending else c.pending + [c.current.value])
      && r.value.children == c.children && r.value.menu == c.menu
      && r.value.selectedIndex == c.selectedIndex
    ensures r.Ok? && c.current == Some(index) ==> r.value == c
    ensures r.Ok? && Tidy(c) ==> Tidy(r.value)
  {
    if !InRange(c, index) then Trap(IndexOutOfRange(index))
    else if c.current.None? then Trap(MissingCurrentChild)
    else Ok(Replace(c, c.current.value, index))
  }

  /** A selection whose transition is allowed to complete before anything else
      happens: from a settled container it leaves exactly the selected child
      attached and current. */
  function SelectAndSettle(c: Container, index: int): (r: Outcome<Container>)
    ensures r.Ok? <==> InRange(c, index) && c.current.Some?
    ensures r.Trap? ==> r == Select(c, index)
    ensures r.Ok? ==>
      && r.value.pending == []
      && r.value.current == Some(index)
      && r.value.children == c.children && r.value.menu == c.menu
      && r.value.selectedIndex == c.selectedIndex
    ensures r.Ok? && Settled(c) ==> Settled(r.value) && r.value.attached == {index}
  {
    match Select(c, index)
    case Trap(f) => Trap(f)
    case Ok(c1) => Ok(Drain(c1))
  }

  /** Selections made one at a time, each followed by the completion of its transition. */
  function SerialRun(c: Container, indices: seq<int>): (r: Outcome<Container>)
    ensures r.Ok? ==> r.value.children == c.children && r.value.menu == c.menu
    ensures r.Ok? ==> r.value.selectedIndex == c.selectedIndex
    ensures r.Ok? && indices != [] ==> r.value.pending == []
    decreases |indices|
  {
    if indices == [] then Ok(c)
    else match SelectAndSettle(c, indices[0])
      case Trap(f) => Trap(f)
      case Ok(c1) => SerialRun(c1, indices[1..])
  }

  /** Without overlapping transitions, every selection of a listed index succeeds and
      leaves exactly the last selected child attached and current. */
  lemma {:induction false} SerialRunSettles(c: Container, indices: seq<int>)
    requires Settled(c)
    requires forall k :: 0 <= k < |indices| ==> InRange(c, indices[k])
    ensures SerialRun(c, indices).Ok?
    ensures Settled(SerialRun(c, indices).value)
    ensures SerialRun(c, indices).value.children == c.children
    ensures SerialRun(c, indices).value.menu == c.menu
    ensures indices != [] ==> SerialRun(c, indices).value.current == Some(indices[|indices| - 1])
    decreases |indices|
  {
    if indices != [] {
      var c1 := SelectAndSettle(c, indices[0]).value;
      assert Settled(c1) && c1.children == c.children && c1.menu == c.menu;
      assert SerialRun(c, indices) == SerialRun(c1, indices[1..]);
      assert forall k :: 0 <= k < |indices[1..]| ==> InRange(c1, indices[1..][k]) by {
        forall k | 0 <= k < |indices[1..]|
          ensures InRange(c1, indices[1..][k])
        {
          assert indices[1..][k] == indices[k + 1];
        }
      }
      SerialRunSettles(c1, indices[1..]);
      if |indices| > 1 {
        assert indices[1..][|indices[1..]| - 1] == indices[|indices| - 1];
      }
    }
  }

  /** Overlapping transitions are not guarded against: switching from A to B and back
      to A before the first cross-dissolve completes queues the removal of A, the
      child that ends up current, so once both complete nothing is attached. */
  lemma OverlappingSwitchBackDetachesCurrent()
    ensures var c := Container([Some("A"), Some("B")], 0, Some(0), {0}, Some("A"), Menu("", false, []), []);
            && Settled(c)
            && Select(c, 1).Ok?
            && Select(Select(c, 1).value, 0).Ok?
            && var r := Drain(Select(Select(c, 1).value, 0).value);
               r.current == Some(0) && r.attached == {}
  {
  }
}
