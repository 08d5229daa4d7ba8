/** The demo application's menu (demo/symfony7/src/Service/DemoMenu.php): the grouped menu is
    flattened in order, and a page finds its previous and next demo in the flat list. The menu
    literal of `grouped()` is a parameter. */
module DemoMenu {
  import opened Wrappers

  datatype Item = Item(route: string, labelText: string)
  datatype Section = Section(group: string, items: seq<Item>)

  /** Every group's items, group after group. */
  function Concat(sections: seq<Section>): seq<Item> {
    if sections == [] then [] else Concat(sections[..|sections| - 1]) + sections[|sections| - 1].items
  }

  /** The inner loop of `flat`: appends one group's items. */
  method AppendItems(flat: seq<Item>, items: seq<Item>) returns (out: seq<Item>)
    ensures out == flat + items
  {
    out := flat;
    for j := 0 to |items|
      invariant out == flat + items[..j]
    {
      out := out + [items[j]];
      assert items[..j + 1] == items[..j] + [items[j]];
    }
    assert items[..|items|] == items;
  }

  /** `flat`. */
  method Flat(sections: seq<Section>) returns (flat: seq<Item>)
    ensures flat == Concat(sections)
  {
    flat := [];
    for i := 0 to |sections|
      invariant flat == Concat(sections[..i])
    {
      flat := AppendItems(flat, sections[i].items);
      assert sections[..i + 1][..i] == sections[..i];
    }
    assert sections[..|sections|] == sections;
  }

  /** The flat list holds every group's items, each at its offset. */
  lemma {:induction false} ConcatHoldsEveryItem(sections: seq<Section>, i: nat, j: nat)
    requires i < |sections| && j < |sections[i].items|
    ensures var off := |Concat(sections[..i])|;
      off + j < |Concat(sections)| && Concat(sections)[off + j] == sections[i].items[j]
  {
    var n := |sections|;
    if i == n - 1 {
      assert sections[..n - 1] == sections[..i];
    } else {
      var init := sections[..n - 1];
      assert init[..i] == sections[..i];
      ConcatHoldsEveryItem(init, i, j);
    }
  }

  /** Flattening two menus one after the other is flattening each. */
  lemma {:induction false} ConcatAppend(a: seq<Section>, b: seq<Section>)
    ensures Concat(a + b) == Concat(a) + Concat(b)
    decreases |b|
  {
    if b == [] {
      assert a + b == a;
    } else {
      assert (a + b)[..|a + b| - 1] == a + b[..|b| - 1];
      ConcatAppend(a, b[..|b| - 1]);
    }
  }

  // ---------------------------------------------------------------- prev / next

  /** The index the search loop stops at: the first item with the route. */
  function FirstIndex(flat: seq<Item>, route: string): (r: Option<nat>)
    ensures r.None? <==> forall k :: 0 <= k < |flat| ==> flat[k].route != route
    ensures r.Some? ==> r.value < |flat| && flat[r.value].route == route
                        && forall k :: 0 <= k < r.value ==> flat[k].route != route
  {
    if flat == [] then None
    else if flat[0].route == route then Some(0)
    else match FirstIndex(flat[1..], route)
      case None => None
      case Some(i) => Some(i + 1)
  }

  /** `prevNext` over the flat list. */
  method PrevNext(sections: seq<Section>, currentRoute: string) returns (prev: Option<Item>, next: Option<Item>)
    ensures prev == Prev(Concat(sections), currentRoute) && next == Next(Concat(sections), currentRoute)
  {
    var flat := Flat(sections);
    var index: Option<nat> := None;
    for i := 0 to |flat|
      invariant forall k :: 0 <= k < i ==> flat[k].route != currentRoute
    {
      if flat[i].route == currentRoute {
        index := Some(i);
        break;
      }
    }
    assert index == FirstIndex(flat, currentRoute) by {
      if index.Some? {
        FirstIndexIsFirst(flat, currentRoute, index.value);
      }
    }
    prev := if index.Some? && index.value > 0 then Some(flat[index.value - 1]) else None;
    next := if index.Some? && index.value < |flat| - 1 then Some(flat[index.value + 1]) else None;
  }

  /** The first position with the route is the one `FirstIndex` reports. */
  lemma FirstIndexIsFirst(flat: seq<Item>, route: string, i: nat)
    requires i < |flat| && flat[i].route == route && forall k :: 0 <= k < i ==> flat[k].route != route
    ensures FirstIndex(flat, route) == Some(i)
  {
    var r := FirstIndex(flat, route);
    assert r.Some?;
    assert !(r.value < i);
  }

  /** The neighbours of the first item with the route: the items just before and after it. */
  function Prev(flat: seq<Item>, route: string): Option<Item> {
    var index := FirstIndex(flat, route);
    if index.Some? && index.value > 0 then Some(flat[index.value - 1]) else None
  }

  function Next(flat: seq<Item>, route: string): Option<Item> {
    var index := FirstIndex(flat, route);
    if index.Some? && index.value < |flat| - 1 then Some(flat[index.value + 1]) else None
  }

  predicate DistinctRoutes(flat: seq<Item>) {
    forall i, j :: 0 <= i < j < |flat| ==> flat[i].route != flat[j].route
  }

  /** With distinct routes, prev and next are inverse steps: the previous demo of a page's next
      demo is the page itself, and the other way round. */
  lemma PrevOfNext(flat: seq<Item>, route: string)
    requires DistinctRoutes(flat) && Next(flat, route).Some?
    ensures Prev(flat, Next(flat, route).value.route) == Some(flat[FirstIndex(flat, route).value])
  {
    var i := FirstIndex(flat, route).value;
    FirstIndexIsFirst(flat, flat[i + 1].route, i + 1);
  }

  lemma NextOfPrev(flat: seq<Item>, route: string)
    requires DistinctRoutes(flat) && Prev(flat, route).Some?
    ensures Next(flat, Prev(flat, route).value.route) == Some(flat[FirstIndex(flat, route).value])
  {
    var i := FirstIndex(flat, route).value;
    FirstIndexIsFirst(flat, flat[i - 1].route, i - 1);
  }

  /** The first demo has no previous one and the last has no next one; a route that is not on the
      menu has neither. */
  lemma Ends(flat: seq<Item>, route: string)
    requires flat != []
    ensures Prev(flat, flat[0].route).None?
    ensures DistinctRoutes(flat) ==> Next(flat, flat[|flat| - 1].route).None?
    ensures (forall k :: 0 <= k < |flat| ==> flat[k].route != route) ==> Prev(flat, route).None? && Next(flat, route).None?
  {
    FirstIndexIsFirst(flat, flat[0].route, 0);
    if DistinctRoutes(flat) {
      FirstIndexIsFirst(flat, flat[|flat| - 1].route, |flat| - 1);
    }
  }

  /** A repeated route is judged by its first occurrence only. */
  lemma RepeatedRouteUsesFirst(flat: seq<Item>, i: nat, j: nat)
    requires i < j < |flat| && flat[i].route == flat[j].route
    requires forall k :: 0 <= k < i ==> flat[k].route != flat[i].route
    ensures FirstIndex(flat, flat[j].route) == Some(i)
  {
    FirstIndexIsFirst(flat, flat[i].route, i);
  }
}
