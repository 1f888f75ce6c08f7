/** The sidebar menu: a fixed table of items, each listing the roles that may
    see it, filtered by the role stored at login; an item is highlighted when
    the current path is its own. */
module Sidebar {
  import Seqs
  import opened Wrappers

  datatype MenuItem = MenuItem(id: string, name: string, roles: seq<string>)

  /** `menuItems`, in display order. */
  const MenuItems: seq<MenuItem> := [
    MenuItem("dashboard", "Dashboard", ["admin"]),
    MenuItem("Clients", "Clients", ["admin"]),
    MenuItem("projects", "Projects", ["admin", "project_lead"]),
    MenuItem("projectLead", "Project Lead", ["project lead"]),
    MenuItem("working", "Working", ["designer"]),
    MenuItem("figmaRepository", "Figma Repository", ["designer"]),
    MenuItem("frontend", "Frontend", ["frontend"]),
    MenuItem("backend", "Backend", ["backend"]),
    MenuItem("staff", "Staff", ["admin"]),
    MenuItem("accounts", "Accounts", ["accounts"])]

  /** `role || ""`: a missing role counts as the empty string. */
  function EffectiveRole(stored: Option<string>): string
  {
    match stored
    case Some(r) => r
    case None => ""
  }

  predicate Visible(item: MenuItem, role: string)
  {
    role in item.roles
  }

  /** `filteredItems`: the items whose roles include the stored role. */
  function FilteredItems(stored: Option<string>): seq<MenuItem>
  {
    Seqs.Filter(MenuItems, (item: MenuItem) => Visible(item, EffectiveRole(stored)))
  }

  /** An item is shown iff it is a menu item listing the role; the menu keeps
      the table's order. */
  lemma FilteredItemsExactly(stored: Option<string>, item: MenuItem)
    ensures item in FilteredItems(stored) <==> item in MenuItems && EffectiveRole(stored) in item.roles
    ensures Seqs.IsSubsequence(FilteredItems(stored), MenuItems)
  {
    var p := (x: MenuItem) => Visible(x, EffectiveRole(stored));
    Seqs.FilterMembership(MenuItems, p, item);
    Seqs.FilterIsSubsequence(MenuItems, p);
  }

  /** The labels of a menu, in order. */
  function Labels(items: seq<MenuItem>): (r: seq<string>)
    ensures |r| == |items|
  {
    seq(|items|, i requires 0 <= i < |items| => items[i].name)
  }

  /** The menu from item `k` on: item `k` if it lists the role, then the menu from `k + 1` on. */
  lemma MenuFrom(role: string, k: nat)
    requires k < |MenuItems|
    ensures Seqs.Filter(MenuItems[k..], (x: MenuItem) => Visible(x, role))
         == Piece(role, k) + Seqs.Filter(MenuItems[k + 1..], (x: MenuItem) => Visible(x, role))
  {
    assert MenuItems[k..][1..] == MenuItems[k + 1..];
  }

  /** The part of the menu for a role drawn from item `k` on. */
  function Piece(role: string, k: nat): seq<MenuItem>
    requires k < |MenuItems|
  {
    if role in MenuItems[k].roles then [MenuItems[k]] else []
  }

  /** The whole menu for a role, item by item. */
  lemma MenuByItems(role: string)
    ensures FilteredItems(Some(role)) ==
      Piece(role, 0) + (Piece(role, 1) + (Piece(role, 2) + (Piece(role, 3) + (Piece(role, 4) +
      (Piece(role, 5) + (Piece(role, 6) + (Piece(role, 7) + (Piece(role, 8) + Piece(role, 9)))))))))
  {
    var p := (x: MenuItem) => Visible(x, role);
    assert MenuItems[0..] == MenuItems;
    assert MenuItems[10..] == [];
    MenuFrom(role, 9);
    var f9 := Seqs.Filter(MenuItems[9..], p);
    assert f9 == Piece(role, 9);
    MenuFrom(role, 8);
    MenuFrom(role, 7);
    MenuFrom(role, 6);
    MenuFrom(role, 5);
    MenuFrom(role, 4);
    MenuFrom(role, 3);
    MenuFrom(role, 2);
    MenuFrom(role, 1);
    MenuFrom(role, 0);
  }

  /** No item lists the empty role, so a session without a role sees an empty menu. */
  lemma NoRoleNoMenu()
    ensures FilteredItems(None) == []
    ensures FilteredItems(Some("")) == []
  {
    forall i | 0 <= i < |MenuItems| ensures !Visible(MenuItems[i], "") {
      assert forall r :: r in MenuItems[i].roles ==> |r| > 0;
    }
    Seqs.FilterNone(MenuItems, (x: MenuItem) => Visible(x, ""));
  }

  /** Exactly the items from `lo` up to `hi` of `items` list `role`. */
  ghost predicate ShownExactly(items: seq<MenuItem>, role: string, lo: nat, hi: nat)
  {
    forall i :: 0 <= i < |items| ==> (Visible(items[i], role) <==> lo <= i < hi)
  }

  /** An administrator sees Dashboard, Clients, Projects and Staff, in that order. */
  lemma AdminMenu()
    ensures Labels(FilteredItems(Some("admin"))) == ["Dashboard", "Clients", "Projects", "Staff"]
  {
    AdminItems();
    MenuNames();
  }

  /** An administrator's menu is the items Dashboard, Clients, Projects and Staff of the table. */
  lemma AdminItems()
    ensures FilteredItems(Some("admin")) == [MenuItems[0], MenuItems[1], MenuItems[2], MenuItems[8]]
  {
    var p := (item: MenuItem) => Visible(item, EffectiveRole(Some("admin")));
    AdminHead();
    AdminTail();
    Seqs.FilterAppend(MenuItems[..8], MenuItems[8..], p);
    assert MenuItems[..8] + MenuItems[8..] == MenuItems;
  }

  /** Of the first eight items, Dashboard, Clients and Projects list "admin". */
  lemma AdminHead()
    ensures Seqs.Filter(MenuItems[..8], (item: MenuItem) => Visible(item, EffectiveRole(Some("admin"))))
         == [MenuItems[0], MenuItems[1], MenuItems[2]]
  {
    forall i | 0 <= i < 8 ensures Visible(MenuItems[..8][i], "admin") <==> 0 <= i < 3 {
      assert MenuItems[..8][i] == MenuItems[i];
      assert i == 0 || i == 1 || i == 2 || i == 3 || i == 4 || i == 5 || i == 6 || i == 7;
    }
    Seqs.FilterBlock(MenuItems[..8], (item: MenuItem) => Visible(item, EffectiveRole(Some("admin"))), 0, 3);
  }

  /** Of the last two items, Staff lists "admin". */
  lemma AdminTail()
    ensures Seqs.Filter(MenuItems[8..], (item: MenuItem) => Visible(item, EffectiveRole(Some("admin"))))
         == [MenuItems[8]]
  {
    forall i | 0 <= i < 2 ensures Visible(MenuItems[8..][i], "admin") <==> 0 <= i < 1 {
      assert MenuItems[8..][i] == MenuItems[8 + i];
    }
    Seqs.FilterBlock(MenuItems[8..], (item: MenuItem) => Visible(item, EffectiveRole(Some("admin"))), 0, 1);
  }

  /** The role Login stores for a project lead, "project lead", sees only Project Lead. */
  lemma ProjectLeadMenu()
    ensures FilteredItems(Some("project lead")) == [MenuItems[3]]
    ensures Labels(FilteredItems(Some("project lead"))) == ["Project Lead"]
  {
    ProjectLeadItems();
    MenuNames();
  }

  /** A project lead's menu is the Project Lead item alone. */
  lemma ProjectLeadItems()
    ensures FilteredItems(Some("project lead")) == [MenuItems[3]]
  {
    ProjectLeadShown();
    Seqs.FilterBlock(MenuItems, (item: MenuItem) => Visible(item, EffectiveRole(Some("project lead"))), 3, 4);
  }

  /** Projects is listed for "project_lead", with an underscore, and so is not
      in the menu of the "project lead" role. */
  lemma ProjectsNeedsUnderscore()
    ensures MenuItems[2] in FilteredItems(Some("project_lead"))
    ensures MenuItems[2] !in FilteredItems(Some("project lead"))
  {
    UnderscoreDiffers();
    FilteredItemsExactly(Some("project_lead"), MenuItems[2]);
    FilteredItemsExactly(Some("project lead"), MenuItems[2]);
  }

  /** The two spellings of the project-lead role differ, at the eighth character. */
  lemma UnderscoreDiffers()
    ensures "project lead" != "project_lead"
    ensures MenuItems[2].roles == ["admin", "project_lead"]
  {
    assert "project lead"[7] != "project_lead"[7];
  }

  /** A designer sees Working and Figma Repository, in that order. */
  lemma DesignerMenu()
    ensures Labels(FilteredItems(Some("designer"))) == ["Working", "Figma Repository"]
  {
    DesignerItems();
    MenuNames();
  }

  /** A designer's menu is the Working and Figma Repository items of the table. */
  lemma DesignerItems()
    ensures FilteredItems(Some("designer")) == [MenuItems[4], MenuItems[5]]
  {
    DesignerBlock();
    assert MenuItems[4..6] == [MenuItems[4], MenuItems[5]];
  }

  /** A designer's menu is the run of the table from Working to Figma Repository. */
  lemma DesignerBlock()
    ensures FilteredItems(Some("designer")) == MenuItems[4..6]
  {
    DesignerShown();
    Seqs.FilterBlock(MenuItems, (item: MenuItem) => Visible(item, EffectiveRole(Some("designer"))), 4, 6);
  }

  /** Project Lead is the one item that lists "project lead". */
  lemma ProjectLeadShown()
    ensures ShownExactly(MenuItems, "project lead", 3, 4)
  {
    UnderscoreDiffers();
    forall i | 0 <= i < |MenuItems| ensures Visible(MenuItems[i], "project lead") <==> 3 <= i < 4 {
      assert i == 0 || i == 1 || i == 2 || i == 3 || i == 4 || i == 5 || i == 6 || i == 7 || i == 8 || i == 9;
    }
  }

  /** Working and Figma Repository are the items that list "designer". */
  lemma DesignerShown()
    ensures ShownExactly(MenuItems, "designer", 4, 6)
  {
    forall i | 0 <= i < |MenuItems| ensures Visible(MenuItems[i], "designer") <==> 4 <= i < 6 {
      assert i == 0 || i == 1 || i == 2 || i == 3 || i == 4 || i == 5 || i == 6 || i == 7 || i == 8 || i == 9;
    }
  }

  /** The labels of the table, item by item. */
  lemma MenuNames()
    ensures MenuItems[0].name == "Dashboard" && MenuItems[1].name == "Clients"
    ensures MenuItems[2].name == "Projects" && MenuItems[3].name == "Project Lead"
    ensures MenuItems[4].name == "Working" && MenuItems[5].name == "Figma Repository"
    ensures MenuItems[8].name == "Staff"
  {
  }

  /** `isActive`: the current path is `/` followed by the item's id. */
  predicate IsActive(pathname: string, item: MenuItem)
  {
    pathname == "/" + item.id
  }

  /** No two menu items share an id. */
  lemma MenuIdsDistinct()
    ensures forall i, j :: 0 <= i < j < |MenuItems| ==> MenuItems[i].id != MenuItems[j].id
  {
  }

  /** An item is active iff the path is a slash followed by exactly its id,
      and at most one item of the table is active for any path. */
  lemma ActiveExactly(pathname: string)
    ensures forall item: MenuItem :: IsActive(pathname, item) <==>
      |pathname| == |item.id| + 1 && pathname[0] == '/' && pathname[1..] == item.id
    ensures forall i, j ::
      0 <= i < |MenuItems| && 0 <= j < |MenuItems| &&
      IsActive(pathname, MenuItems[i]) && IsActive(pathname, MenuItems[j])
      ==> i == j
  {
    MenuIdsDistinct();
    forall item: MenuItem | |pathname| == |item.id| + 1 && pathname[0] == '/' && pathname[1..] == item.id
      ensures IsActive(pathname, item)
    {
      assert pathname == [pathname[0]] + pathname[1..];
    }
  }
}
