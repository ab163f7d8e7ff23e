/**
 * The sidebar (src/components/Sidebar.jsx): the menu table, which entry is
 * active for the current path, which entry is hovered, and the icon
 * animation state that follows from both.
 */
module Sidebar {
  import opened Wrappers

  /** A row of `menuItems` (`caption` is its `label`); icon and colour classes are presentation and left out. */
  datatype MenuItem = MenuItem(id: string, path: string, caption: string)

  /** `menuItems`, in display order. */
  const MenuItems: seq<MenuItem> := [
    MenuItem("home", "/", "Home"),
    MenuItem("chat", "/chat", "Health Assistant"),
    MenuItem("prevention", "/prevention", "Prevention Hub"),
    MenuItem("symptoms", "/symptoms", "Symptom Checker"),
    MenuItem("vaccination", "/vaccination", "Vaccination Center")
  ]

  /** The id every unknown path falls back to. */
  const HomeId: string := "home"

  /** getActiveSection: exact comparisons with the five menu paths, defaulting to 'home'. */
  function GetActiveSection(path: string): (r: string)
    ensures exists i :: 0 <= i < |MenuItems| && MenuItems[i].id == r
  {
    assert MenuItems[0].id == "home";
    if path == "/" then "home"
    else if path == "/chat" then (assert MenuItems[1].id == "chat"; "chat")
    else if path == "/prevention" then (assert MenuItems[2].id == "prevention"; "prevention")
    else if path == "/symptoms" then (assert MenuItems[3].id == "symptoms"; "symptoms")
    else if path == "/vaccination" then (assert MenuItems[4].id == "vaccination"; "vaccination")
    else "home"
  }

  /** No two menu items share an id or a path. */
  lemma MenuKeysDistinct(i: int, j: int)
    requires 0 <= i < j < |MenuItems|
    ensures MenuItems[i].id != MenuItems[j].id
    ensures MenuItems[i].path != MenuItems[j].path
  {
    var ids := ["home", "chat", "prevention", "symptoms", "vaccination"];
    var paths := ["/", "/chat", "/prevention", "/symptoms", "/vaccination"];
    assert forall k :: 0 <= k < 5 ==> MenuItems[k].id == ids[k] && MenuItems[k].path == paths[k];
    assert ids[i] != ids[j] && paths[i] != paths[j] by {
      assert ids[i][0] != ids[j][0] || |ids[i]| != |ids[j]|;
      assert paths[i] == "/" || paths[j] == "/" || paths[i][1] != paths[j][1];
    }
  }

  /** Round trip: each menu item's path makes that item the active section. */
  lemma ActiveSectionRoundTrip(i: int)
    requires 0 <= i < |MenuItems|
    ensures GetActiveSection(MenuItems[i].path) == MenuItems[i].id
  {
  }

  /** Matching is exact: any path that is not a menu path, '/suggestions' and '/chat/' among them, gives 'home'. */
  lemma UnknownPathIsHome(path: string)
    requires forall i :: 0 <= i < |MenuItems| ==> MenuItems[i].path != path
    ensures GetActiveSection(path) == HomeId
  {
    assert MenuItems[1].path == "/chat" && MenuItems[2].path == "/prevention";
    assert MenuItems[3].path == "/symptoms" && MenuItems[4].path == "/vaccination";
  }

  /** Whatever the path, exactly one menu item is rendered active. */
  lemma ExactlyOneActive(path: string)
    ensures exists i :: 0 <= i < |MenuItems| && MenuItems[i].id == GetActiveSection(path)
    ensures forall i, j ::
              (0 <= i < |MenuItems| && 0 <= j < |MenuItems|
               && MenuItems[i].id == GetActiveSection(path) && MenuItems[j].id == GetActiveSection(path)) ==> i == j
  {
    var active := GetActiveSection(path);
    var k :| 0 <= k < |MenuItems| && MenuItems[k].id == active;
    forall i, j | 0 <= i < |MenuItems| && 0 <= j < |MenuItems| && i != j
      ensures MenuItems[i].id != MenuItems[j].id
    {
      if i < j { MenuKeysDistinct(i, j); } else { MenuKeysDistinct(j, i); }
    }
  }

  /** The icon's animation variant. */
  datatype IconState = Rest | Hover | Active

  /** Hover takes precedence over active; everything else rests. */
  function IconStateOf(hoveredItem: Option<string>, activeSection: string, itemId: string): (r: IconState)
    ensures r == Hover <==> hoveredItem == Some(itemId)
    ensures r == Active <==> hoveredItem != Some(itemId) && activeSection == itemId
  {
    if hoveredItem == Some(itemId) then Hover
    else if activeSection == itemId then Active
    else Rest
  }

  /** Over the whole menu at most one icon hovers and at most one is active; an item both hovered and active shows hover. */
  lemma IconStatesAtMostOne(hoveredItem: Option<string>, path: string, i: int, j: int)
    requires 0 <= i < j < |MenuItems|
    ensures hoveredItem == Some(MenuItems[i].id) ==> IconStateOf(hoveredItem, GetActiveSection(path), MenuItems[i].id) == Hover
    ensures var active := GetActiveSection(path);
            && !(IconStateOf(hoveredItem, active, MenuItems[i].id) == Hover
                 && IconStateOf(hoveredItem, active, MenuItems[j].id) == Hover)
            && !(IconStateOf(hoveredItem, active, MenuItems[i].id) == Active
                 && IconStateOf(hoveredItem, active, MenuItems[j].id) == Active)
  {
    MenuKeysDistinct(i, j);
  }

  /** The sidebar's own state: which item the pointer is over. */
  class Panel {
    var hoveredItem: Option<string>

    /** Nothing hovered at first. */
    constructor ()
      ensures hoveredItem == None
    {
      hoveredItem := None;
    }

    /** onMouseEnter of an item. */
    method MouseEnter(itemId: string)
      modifies this
      ensures hoveredItem == Some(itemId)
    {
      hoveredItem := Some(itemId);
    }

    /** onMouseLeave of any item. */
    method MouseLeave()
      modifies this
      ensures hoveredItem == None
    {
      hoveredItem := None;
    }

    /** The variant an item's icon animates to, for the current path. */
    function IconOf(path: string, itemId: string): (r: IconState)
      reads this
      ensures r == Hover <==> hoveredItem == Some(itemId)
      ensures r == Active ==> itemId == GetActiveSection(path)
    {
      IconStateOf(hoveredItem, GetActiveSection(path), itemId)
    }
  }
}
