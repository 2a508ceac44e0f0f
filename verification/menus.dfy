/**
  The pull-down menu a container (or a root screen) attaches to its bar button:
  one action per titled child, in list order, each carrying a check state.
 */
module Menus {
  import opened Outcomes

  /** `UIMenuElement.State`, restricted to the two values the program writes. */
  datatype ActionState = On | Off

  /** One `UIAction`: its label, the position its handler passes to the
      selection callback, and whether it is shown checked. */
  datatype Action = Action(title: string, selects: nat, state: ActionState)

  /** A `UIMenu`: its heading, whether it carries `.singleSelection`, and its actions. */
  datatype Menu = Menu(title: string, singleSelection: bool, actions: seq<Action>)

  /** `compactMap { $0.title }`: the children's titles in list order, nil titles dropped. */
  function Titles(children: seq<Option<string>>): (ts: seq<string>)
    ensures |ts| <= |children|
  {
    if children == [] then []
    else if children[0].Some? then [children[0].value] + Titles(children[1..])
    else Titles(children[1..])
  }

  /** Every child has a title, as in every list the program builds. */
  predicate AllTitled(children: seq<Option<string>>) {
    forall p :: 0 <= p < |children| ==> children[p].Some?
  }

  /** The position in `children` of the child that supplies title `k`. */
  function TitledPosition(children: seq<Option<string>>, k: nat): (p: nat)
    requires k < |Titles(children)|
    ensures k <= p < |children|
    ensures children[p] == Some(Titles(children)[k])
  {
    if children[0].Some? then
      if k == 0 then 0 else 1 + TitledPosition(children[1..], k - 1)
    else 1 + TitledPosition(children[1..], k)
  }

  /** Later titles come from later children: the title list keeps the children's order. */
  lemma {:induction false} TitledPositionIncreasing(children: seq<Option<string>>, j: nat, k: nat)
    requires j < k < |Titles(children)|
    ensures TitledPosition(children, j) < TitledPosition(children, k)
  {
    if children[0].Some? {
      if j > 0 {
        TitledPositionIncreasing(children[1..], j - 1, k - 1);
      }
    } else {
      TitledPositionIncreasing(children[1..], j, k);
    }
  }

  /** Only nil titles are dropped: every titled child supplies some title of the list. */
  lemma {:induction false} TitledChildrenCovered(children: seq<Option<string>>, p: nat)
    requires p < |children| && children[p].Some?
    ensures exists k :: 0 <= k < |Titles(children)| && TitledPosition(children, k) == p
  {
    if p == 0 {
      assert TitledPosition(children, 0) == 0;
    } else {
      TitledChildrenCovered(children[1..], p - 1);
      var k :| 0 <= k < |Titles(children[1..])| && TitledPosition(children[1..], k) == p - 1;
      if children[0].Some? {
        assert TitledPosition(children, k + 1) == p;
      } else {
        assert TitledPosition(children, k) == p;
      }
    }
  }

  /** With no nil title, nothing is dropped: title `k` is child `k`'s own title. */
  lemma {:induction false} AllTitledKeepsPositions(children: seq<Option<string>>)
    requires AllTitled(children)
    ensures |Titles(children)| == |children|
    ensures forall k :: 0 <= k < |children| ==>
              Titles(children)[k] == children[k].value && TitledPosition(children, k) == k
  {
    if children != [] {
      AllTitledKeepsPositions(children[1..]);
    }
  }

  /** The positions shown with a check mark. */
  function Checked(actions: seq<Action>): set<nat> {
    set k: nat | k < |actions| && actions[k].state == On
  }

  /** `actions` are the entries built from `children`: entry `k` shows title `k`
      and passes `k` to its handler. */
  predicate Lists(actions: seq<Action>, children: seq<Option<string>>) {
    && |actions| == |Titles(children)|
    && forall k :: 0 <= k < |actions| ==>
         actions[k].title == Titles(children)[k] && actions[k].selects == k
  }

  /** The two action lists differ at most in their check states. */
  predicate SameEntries(a: seq<Action>, b: seq<Action>) {
    && |a| == |b|
    && forall k :: 0 <= k < |a| ==> a[k].title == b[k].title && a[k].selects == b[k].selects
  }

  /** Builds the actions over `children`; the entry at position `checked`, if any,
      starts checked and every other entry starts unchecked. */
  function Actions(children: seq<Option<string>>, checked: Option<int>): (r: seq<Action>)
    ensures Lists(r, children)
    ensures |r| <= |children|
    ensures forall k :: 0 <= k < |r| ==> children[TitledPosition(children, k)] == Some(r[k].title)
    ensures Checked(r) == if checked.Some? && 0 <= checked.value < |r| then {checked.value} else {}
  {
    var ts := Titles(children);
    var r := seq(|ts|, k requires 0 <= k < |ts| => Action(ts[k], k, if checked == Some(k) then On else Off));
    assert checked.Some? && 0 <= checked.value < |r| ==> checked.value in Checked(r);
    r
  }

  /** `updateSelectedMenuItem(at:)`: the entry at `index` is checked and every other
      entry is unchecked; an index past the end leaves every entry unchecked. */
  function UpdateSelectedMenuItem(m: Menu, index: int): (r: Menu)
    ensures r.title == m.title && r.singleSelection == m.singleSelection
    ensures SameEntries(r.actions, m.actions)
    ensures Checked(r.actions) == if 0 <= index < |m.actions| then {index} else {}
  {
    var r := m.(actions := seq(|m.actions|, k requires 0 <= k < |m.actions| =>
                  m.actions[k].(state := if k == index then On else Off)));
    assert 0 <= index < |m.actions| ==> index in Checked(r.actions);
    r
  }

  /** `item.state = .on` on `menuItems[index]`: checks that one entry, trapping
      when the menu has no entry at `index`. */
  function SetOn(m: Menu, index: int): (r: Outcome<Menu>)
    ensures r.Ok? <==> 0 <= index < |m.actions|
    ensures r.Trap? ==> r.fault == MenuIndexOutOfRange(index)
    ensures r.Ok? ==> && r.value.title == m.title && r.value.singleSelection == m.singleSelection
                      && SameEntries(r.value.actions, m.actions)
                      && Checked(r.value.actions) == Checked(m.actions) + {index}
  {
    if 0 <= index < |m.actions| then
      var r := m.(actions := m.actions[index := m.actions[index].(state := On)]);
      assert index in Checked(r.actions);
      Ok(r)
    else Trap(MenuIndexOutOfRange(index))
  }

  /** The check states are all an action list holds beyond its entries, so two lists
      with the same entries and the same checked positions are equal. */
  lemma CheckedDeterminesActions(a: seq<Action>, b: seq<Action>)
    requires SameEntries(a, b)
    requires Checked(a) == Checked(b)
    ensures a == b
  {
    forall k | 0 <= k < |a|
      ensures a[k] == b[k]
    {
      assert a[k].state == On <==> k in Checked(a);
      assert b[k].state == On <==> k in Checked(b);
    }
  }

  /** An untitled child shifts the handlers: the only entry is labelled with
      child 1's title, yet its handler passes position 0, the untitled child. */
  lemma UntitledChildShiftsHandlers()
    ensures var children := [None, Some("Orange")];
            var r := Actions(children, None);
            && |r| == 1 && r[0].title == "Orange" && r[0].selects == 0
            && children[r[0].selects] == None
  {
  }
}
