/** The registry of open windows and the order their menus are listed in. */
module WindowRegistry {
  import opened Common
  import opened Ordering
  import opened WindowNames

  /** Menu entries of one window; only their equality matters. */
  type Menu = seq<string>

  function Without(order: seq<int>, id: int): seq<int> {
    if |order| == 0 then []
    else Without(order[..|order| - 1], id) + if order[|order| - 1] == id then [] else [order[|order| - 1]]
  }

  /** The menus published by the windows of a list, in its order. */
  function Published(order: seq<int>, menus: map<int, Menu>): seq<Menu> {
    if |order| == 0 then []
    else
      var front, id := Published(order[..|order| - 1], menus), order[|order| - 1];
      if id in menus then front + [menus[id]] else front
  }

  /**
   The windows listed are all those of the list that published a menu, each once and in
   the order of the list, and the menus are theirs.
   */
  lemma {:induction false} PublishedAre(order: seq<int>, menus: map<int, Menu>)
    returns (listed: seq<int>, keep: seq<bool>, ps: seq<nat>)
    ensures Picks(listed, order, keep, ps) && forall p | 0 <= p < |order| :: keep[p] == (order[p] in menus)
    ensures |Published(order, menus)| == |listed|
    ensures forall k | 0 <= k < |listed| :: listed[k] in menus && Published(order, menus)[k] == menus[listed[k]]
  {
    hide Picks;
    if |order| == 0 {
      PicksNone<int>();
      listed, keep, ps := [], [], [];
    } else {
      var n := |order| - 1;
      listed, keep, ps := PublishedAre(order[..n], menus);
      assert order[..n] + [order[n]] == order;
      PicksMore(listed, order[..n], keep, ps, order[n], order[n] in menus);
      assert |keep| == n by { PicksLength(listed, order[..n], keep, ps); }
      keep, ps := keep + [order[n] in menus], if order[n] in menus then ps + [n] else ps;
      listed := if order[n] in menus then listed + [order[n]] else listed;
      PicksLength(listed, order, keep, ps);
    }
  }

  class WindowManager {
    var windows: set<int>
    var lastFocused: Option<int>
    var windowNames: map<int, string>
    var nextNameIndex: nat
    var windowMenuTabs: map<int, Menu>
    /** Live windows in registration order, and the name index of each. */
    ghost var order: seq<int>
    ghost var indices: map<int, int>

    ghost predicate Valid()
      reads this
    {
      && Named(windows, windowNames, nextNameIndex, windowMenuTabs, order, indices)
      && (lastFocused.Some? ==> lastFocused.value in windows)
      && (lastFocused.None? ==> windows == {})
    }

    constructor ()
      ensures Valid() && order == [] && windowMenuTabs == map[]
    {
      windows, lastFocused, windowNames, nextNameIndex, windowMenuTabs := {}, None, map[], 0, map[];
      order, indices := [], map[];
    }

    /** Registers a window under the next name; it becomes the focused one. */
    method Register(id: int)
      requires Valid()
      modifies this
      ensures Valid() && order == Without(old(order), id) + [id]
      ensures windows == old(windows) + {id} && lastFocused == Some(id)
      ensures windowMenuTabs == old(windowMenuTabs)
      ensures windowNames == old(windowNames)[id := NameOf(old(nextNameIndex))]
    {
      hide Named, Without;
      RegisterNamed(windows, windowNames, nextNameIndex, windowMenuTabs, order, indices, id);
      windows := windows + {id};
      lastFocused := Some(id);
      var name := IndexToName(nextNameIndex);
      order, indices := Without(order, id) + [id], indices[id := nextNameIndex];
      nextNameIndex := nextNameIndex + 1;
      windowNames := windowNames[id := name];
    }

    /** Forgets a window; focus falls to some remaining one. */
    method Unregister(id: int)
      requires Valid()
      modifies this
      ensures Valid() && order == Without(old(order), id)
      ensures windows == old(windows) - {id}
      ensures windowMenuTabs == old(windowMenuTabs) - {id}
      ensures old(lastFocused) != Some(id) ==> lastFocused == old(lastFocused)
      ensures windowNames == old(windowNames) - {id}
    {
      hide Named, Without;
      UnregisterNamed(windows, windowNames, nextNameIndex, windowMenuTabs, order, indices, id);
      windows := windows - {id};
      windowNames := windowNames - {id};
      windowMenuTabs := windowMenuTabs - {id};
      order, indices := Without(order, id), indices - {id};
      if lastFocused == Some(id) {
        lastFocused := None;
        if windows != {} {
          Inhabited(windows);
          var next :| next in windows;
          lastFocused := Some(next);
        }
      }
    }

    method SetFocused(id: int)
      requires Valid()
      modifies `lastFocused
      ensures Valid() && lastFocused == if id in windows then Some(id) else old(lastFocused)
    {
      if id in windows { lastFocused := Some(id); }
    }

    /** Stores the menu of a registered window; tells whether anything changed. */
    method PublishWindowMenuTabs(id: int, menu: Menu) returns (changed: bool)
      requires Valid()
      modifies `windowMenuTabs
      ensures Valid()
      ensures windowMenuTabs == if id in windows then old(windowMenuTabs)[id := menu] else old(windowMenuTabs)
      ensures changed <==> windowMenuTabs != old(windowMenuTabs)
    {
      if id !in windows { return false; }
      if id in windowMenuTabs && windowMenuTabs[id] == menu {
        assert windowMenuTabs[id := menu] == windowMenuTabs;
        return false;
      }
      windowMenuTabs := windowMenuTabs[id := menu];
      assert windowMenuTabs[id] == menu;
      return true;
    }

    /** A display name is shown only while several windows are open. */
    method GetWindowName(id: int) returns (name: Option<string>)
      requires Valid()
      ensures name == if |windows| > 1 && id in windows then Some(NameOf(indices[id])) else None
    {
      if |windows| <= 1 { return None; }
      return if id in windowNames then Some(windowNames[id]) else None;
    }

    /** Window ids sorted by name, whatever order the map lists them in. */
    method IdsByName() returns (ids: seq<int>)
      requires Valid()
      ensures ids == order
    {
      ids := [];
      var todo := windowNames.Keys;
      SortedNone(indices);
      while todo != {}
        invariant todo <= windows && SortedSoFar(ids, todo, indices)
        decreases |todo|
      {
        hide SortedSoFar;
        var first := FirstByName(todo);
        SortedStep(ids, todo, indices, first);
        ids := ids + [first];
        todo := todo - {first};
      }
      SortedAll(ids, indices);
      OrderedUnique(ids, order, indices);
    }

    /** The window with the first name. */
    method FirstByName(ids: set<int>) returns (first: int)
      requires Valid() && ids <= windows && ids != {}
      ensures first in ids && forall k | k in ids && k != first :: indices[first] < indices[k]
    {
      Inhabited(ids);
      first :| first in ids;
      var rest := ids - {first};
      while rest != {}
        invariant rest <= ids && first in ids && first !in rest
        invariant forall k | k in ids && k !in rest && k != first :: indices[first] < indices[k]
        decreases |rest|
      {
        Inhabited(rest);
        var k :| k in rest;
        NameOrder(indices[k], indices[first]);
        if NameBefore(windowNames[k], windowNames[first]) { first := k; }
        rest := rest - {k};
      }
    }

    /** The published menus of the open windows, in registration order. */
    method OrderedWindowMenuTabs() returns (menus: seq<Menu>)
      requires Valid()
      ensures menus == Published(order, windowMenuTabs)
    {
      var ids := IdsByName();
      menus := [];
      for i := 0 to |ids|
        invariant menus == Published(ids[..i], windowMenuTabs)
      {
        assert ids[..i + 1][..i] == ids[..i];
        if ids[i] in windowMenuTabs { menus := menus + [windowMenuTabs[ids[i]]]; }
      }
      assert ids[..|ids|] == ids;
    }
  }

  /** Each open window has the name of its own index, and the order lists them by index. */
  ghost predicate Named(windows: set<int>, names: map<int, string>, next: nat, menus: map<int, Menu>,
                        order: seq<int>, indices: map<int, int>) {
    && names.Keys == windows && indices.Keys == windows && menus.Keys <= windows
    && (forall id | id in windows :: 0 <= indices[id] < next && names[id] == NameOf(indices[id]))
    && (forall a, b | a in windows && b in windows && a != b :: indices[a] != indices[b])
    && IsOrdered(order, indices)
  }

  lemma RegisterNamed(windows: set<int>, names: map<int, string>, next: nat, menus: map<int, Menu>,
                      order: seq<int>, indices: map<int, int>, id: int)
    requires Named(windows, names, next, menus, order, indices)
    ensures Named(windows + {id}, names[id := NameOf(next)], next + 1, menus,
                  Without(order, id) + [id], indices[id := next])
  {
    hide IsOrdered, NameOf, Without;
    RegisterOrder(order, indices, id, next);
  }

  lemma UnregisterNamed(windows: set<int>, names: map<int, string>, next: nat, menus: map<int, Menu>,
                        order: seq<int>, indices: map<int, int>, id: int)
    requires Named(windows, names, next, menus, order, indices)
    ensures Named(windows - {id}, names - {id}, next, menus - {id}, Without(order, id), indices - {id})
  {
    hide IsOrdered, NameOf, Without;
    UnregisterOrder(order, indices, id);
  }

  lemma {:induction false} WithoutFacts(order: seq<int>, id: int, pos: map<int, int>)
    requires forall i | 0 <= i < |order| :: order[i] in pos
    requires forall i, j | 0 <= i < j < |order| :: Before(pos, order[i], order[j])
    ensures forall k :: k in Without(order, id) <==> k in order && k != id
    ensures forall i | 0 <= i < |Without(order, id)| :: Without(order, id)[i] in pos
    ensures forall i, j | 0 <= i < j < |Without(order, id)| :: Before(pos, Without(order, id)[i], Without(order, id)[j])
  {
    if |order| > 0 {
      var front, last := order[..|order| - 1], order[|order| - 1];
      WithoutFacts(front, id, pos);
      assert order == front + [last];
      var kept := Without(front, id);
      forall i | 0 <= i < |kept| ensures Before(pos, kept[i], last) {
        var k := kept[i];
        assert k in kept && k in front;
        var m :| 0 <= m < |front| && front[m] == k;
        assert Before(pos, order[m], order[|order| - 1]);
      }
    }
  }

  lemma UnregisterOrder(order: seq<int>, indices: map<int, int>, id: int)
    requires IsOrdered(order, indices)
    ensures IsOrdered(Without(order, id), indices - {id})
  {
    OrderedIn(order, indices);
    WithoutFacts(order, id, indices);
    var kept, pos := Without(order, id), indices - {id};
    forall i | 0 <= i < |kept| ensures kept[i] in pos { var k := kept[i]; assert k in kept; }
    forall i, j | 0 <= i < j < |kept|
      ensures Before(pos, kept[i], kept[j])
    {
      assert Before(indices, kept[i], kept[j]);
    }
  }

  lemma RegisterOrder(order: seq<int>, indices: map<int, int>, id: int, next: int)
    requires IsOrdered(order, indices) && forall k | k in indices :: indices[k] < next
    ensures IsOrdered(Without(order, id) + [id], indices[id := next])
  {
    UnregisterOrder(order, indices, id);
    var kept, pos := Without(order, id), indices[id := next];
    var more := kept + [id];
    OrderedIn(kept, indices - {id});
    forall k ensures k in more <==> k in pos {
      if k in more { if k != id { assert k in kept; } }
      if k in pos && k != id { assert k in indices - {id}; assert k in kept; }
    }
    forall i, j | 0 <= i < j < |more| ensures more[i] in pos && more[j] in pos && Before(pos, more[i], more[j]) {
      if j < |kept| { assert Before(indices - {id}, kept[i], kept[j]); }
    }
  }
}
