/** The sidebar navigation (menu-items.tsx): which menu entries a signed-in
    user sees. Entries without a resource and the dashboard are always
    shown, an administrator sees everything, anyone else sees an entry when
    their role grants VIEW on its resource; sections left empty disappear.
 */
module Menu {
  import opened Wrappers
  import opened Permissions

  /** A role name: the administrator's, or any other. */
  datatype RoleName = AdminRole | OtherRole(raw: string)

  /** One node of the role's access list. */
  datatype Access = Access(resource: ResourceValue, action: ActionValue)

  /** `roles` of the profile; either field may be absent. */
  datatype RoleRecord = RoleRecord(name: Option<RoleName>, edges: Option<seq<Access>>)

  /** The profile as the menu reads it; `roles` may be absent. */
  datatype User = User(roles: Option<RoleRecord>)

  datatype MenuItem = MenuItem(title: string, url: string, resource: Option<Resource>)
  datatype MenuSection = MenuSection(title: string, url: string, items: seq<MenuItem>)

  /** `roles?.name === ADMIN`. */
  predicate IsAdmin(u: User) {
    u.roles.Some? && u.roles.value.name == Some(AdminRole)
  }

  /** Whether some edge of the list grants VIEW on `r`. */
  function Grants(edges: seq<Access>, r: Resource): (b: bool)
    ensures b <==> exists i :: 0 <= i < |edges| && edges[i] == Access(KnownResource(r), KnownAction(View))
  {
    if edges == [] then false
    else edges[0] == Access(KnownResource(r), KnownAction(View)) || Grants(edges[1..], r)
  }

  /** `hasViewPermission`: false without an access list, otherwise whether
      some entry of it is (r, VIEW). */
  function HasViewPermission(u: User, r: Resource): (b: bool)
    ensures b ==> u.roles.Some? && u.roles.value.edges.Some?
    ensures u.roles.Some? && u.roles.value.edges.Some? ==>
      (b <==> Access(KnownResource(r), KnownAction(View)) in u.roles.value.edges.value)
  {
    if u.roles.None? || u.roles.value.edges.None? then false
    else Grants(u.roles.value.edges.value, r)
  }

  /** The test `filterMenuItems` applies to one entry. */
  predicate Keep(item: MenuItem, u: User) {
    item.resource.None? || item.resource == Some(Dashboard) || IsAdmin(u)
    || HasViewPermission(u, item.resource.value)
  }

  /** `a` is `b` with some elements left out, in the same order. */
  predicate IsSubseq<T(==)>(a: seq<T>, b: seq<T>)
    decreases |b|
  {
    if a == [] then true
    else if b == [] then false
    else if a[0] == b[0] then IsSubseq(a[1..], b[1..])
    else IsSubseq(a, b[1..])
  }

  /** Dropping the first element of a subsequence keeps it one. */
  lemma {:induction false} SubseqTail<T>(a: seq<T>, b: seq<T>)
    requires a != [] && IsSubseq(a, b)
    ensures IsSubseq(a[1..], b)
    decreases |b|, 0
  {
    if a[0] != b[0] {
      SubseqTail(a, b[1..]);
    }
    SubseqCons(a[1..], b[0], b[1..]);
    assert [b[0]] + b[1..] == b;
  }

  /** A subsequence stays one when an element is put in front of the whole. */
  lemma {:induction false} SubseqCons<T>(a: seq<T>, x: T, b: seq<T>)
    requires IsSubseq(a, b)
    ensures IsSubseq(a, [x] + b)
    decreases |b|, 1
  {
    var xb := [x] + b;
    assert xb[1..] == b;
    if a != [] && a[0] == x {
      SubseqTail(a, b);
    }
  }

  /** `filterMenuItems`: the entries that pass `Keep`, in order. */
  function FilterMenuItems(items: seq<MenuItem>, u: User): (r: seq<MenuItem>)
    ensures IsSubseq(r, items)
    ensures forall x :: x in r <==> x in items && Keep(x, u)
    decreases |items|
  {
    if items == [] then []
    else
      var rest := FilterMenuItems(items[1..], u);
      if Keep(items[0], u) then
        assert ([items[0]] + rest)[1..] == rest;
        [items[0]] + rest
      else
        SubseqCons(rest, items[0], items[1..]);
        assert [items[0]] + items[1..] == items;
        rest
  }

  /** The filter keeps every copy of a permitted entry and drops every
      copy of the others. */
  lemma {:induction false} FilterMenuItemsCounts(items: seq<MenuItem>, u: User)
    ensures forall x :: multiset(FilterMenuItems(items, u))[x] == if Keep(x, u) then multiset(items)[x] else 0
    decreases |items|
  {
    if items != [] {
      FilterMenuItemsCounts(items[1..], u);
      var rest := FilterMenuItems(items[1..], u);
      assert items == [items[0]] + items[1..];
      assert multiset(items) == multiset{items[0]} + multiset(items[1..]);
      if Keep(items[0], u) {
        assert multiset(FilterMenuItems(items, u)) == multiset{items[0]} + multiset(rest);
      } else {
        assert FilterMenuItems(items, u) == rest;
      }
    }
  }

  /** A section after filtering its entries. */
  function Filtered(s: MenuSection, u: User): MenuSection {
    s.(items := FilterMenuItems(s.items, u))
  }

  /** Every section filtered, before the empty ones are dropped. */
  function FilteredAll(sections: seq<MenuSection>, u: User): (r: seq<MenuSection>)
    ensures |r| == |sections| && forall i :: 0 <= i < |r| ==> r[i] == Filtered(sections[i], u)
  {
    seq(|sections|, i requires 0 <= i < |sections| => Filtered(sections[i], u))
  }

  /** `filterMenuSections`: each section filtered, the empty ones dropped,
      the rest in their original order. */
  function FilterMenuSections(sections: seq<MenuSection>, u: User): (r: seq<MenuSection>)
    ensures IsSubseq(r, FilteredAll(sections, u))
    ensures forall i :: 0 <= i < |r| ==> |r[i].items| > 0
    ensures forall s :: s in sections && |Filtered(s, u).items| > 0 ==> Filtered(s, u) in r
    ensures forall t :: t in r ==> exists s :: s in sections && t == Filtered(s, u)
    ensures |r| <= |sections|
    decreases |sections|
  {
    if sections == [] then []
    else
      var rest := FilterMenuSections(sections[1..], u);
      var f := Filtered(sections[0], u);
      SectionsStep(sections, u, rest);
      if |f.items| > 0 then [f] + rest else rest
  }

  /** One step of the section filter: the first section, filtered, is put
      in front of the rest's result when it keeps an entry. */
  lemma SectionsStep(sections: seq<MenuSection>, u: User, rest: seq<MenuSection>)
    requires sections != []
    requires IsSubseq(rest, FilteredAll(sections[1..], u))
    requires forall i :: 0 <= i < |rest| ==> |rest[i].items| > 0
    requires forall s :: s in sections[1..] && |Filtered(s, u).items| > 0 ==> Filtered(s, u) in rest
    requires forall t :: t in rest ==> exists s :: s in sections[1..] && t == Filtered(s, u)
    requires |rest| <= |sections[1..]|
    ensures var f := Filtered(sections[0], u);
      var r := if |f.items| > 0 then [f] + rest else rest;
      && IsSubseq(r, FilteredAll(sections, u))
      && (forall i :: 0 <= i < |r| ==> |r[i].items| > 0)
      && (forall s :: s in sections && |Filtered(s, u).items| > 0 ==> Filtered(s, u) in r)
      && (forall t :: t in r ==> exists s :: s in sections && t == Filtered(s, u))
      && |r| <= |sections|
  {
    StepOrder(sections, u, rest);
    StepCovers(sections, u, rest);
    StepSources(sections, u, rest);
  }

  /** The step keeps the order of the filtered sections. */
  lemma StepOrder(sections: seq<MenuSection>, u: User, rest: seq<MenuSection>)
    requires sections != []
    requires IsSubseq(rest, FilteredAll(sections[1..], u))
    ensures var f := Filtered(sections[0], u);
      IsSubseq(if |f.items| > 0 then [f] + rest else rest, FilteredAll(sections, u))
  {
    var f := Filtered(sections[0], u);
    var all := FilteredAll(sections, u);
    assert all == [f] + FilteredAll(sections[1..], u);
    if |f.items| > 0 {
      assert ([f] + rest)[1..] == rest && all[1..] == FilteredAll(sections[1..], u);
    } else {
      SubseqCons(rest, f, FilteredAll(sections[1..], u));
    }
  }

  /** The step keeps every section that is not left empty. */
  lemma StepCovers(sections: seq<MenuSection>, u: User, rest: seq<MenuSection>)
    requires sections != []
    requires forall s :: s in sections[1..] && |Filtered(s, u).items| > 0 ==> Filtered(s, u) in rest
    ensures var f := Filtered(sections[0], u);
      var r := if |f.items| > 0 then [f] + rest else rest;
      forall s :: s in sections && |Filtered(s, u).items| > 0 ==> Filtered(s, u) in r
  {
    var f := Filtered(sections[0], u);
    var r := if |f.items| > 0 then [f] + rest else rest;
    forall s | s in sections && |Filtered(s, u).items| > 0
      ensures Filtered(s, u) in r
    {
      var k :| 0 <= k < |sections| && sections[k] == s;
      if k > 0 {
        assert sections[1..][k - 1] == s;
      }
    }
  }

  /** Every section the step keeps comes from the input. */
  lemma StepSources(sections: seq<MenuSection>, u: User, rest: seq<MenuSection>)
    requires sections != []
    requires forall t :: t in rest ==> exists s :: s in sections[1..] && t == Filtered(s, u)
    ensures var f := Filtered(sections[0], u);
      var r := if |f.items| > 0 then [f] + rest else rest;
      forall t :: t in r ==> exists s :: s in sections && t == Filtered(s, u)
  {
    var f := Filtered(sections[0], u);
    var r := if |f.items| > 0 then [f] + rest else rest;
    forall t | t in r
      ensures exists s :: s in sections && t == Filtered(s, u)
    {
      if t in rest {
        var s :| s in sections[1..] && t == Filtered(s, u);
        var k :| 0 <= k < |sections[1..]| && sections[1..][k] == s;
        assert sections[k + 1] == s;
      } else {
        assert t == f && sections[0] in sections;
      }
    }
  }

  /** Every copy of a filtered section that keeps an entry survives, and
      no copy of an emptied one does. */
  lemma FilterMenuSectionsCounts(sections: seq<MenuSection>, u: User)
    ensures forall t :: multiset(FilterMenuSections(sections, u))[t] ==
                        (if |t.items| > 0 then multiset(FilteredAll(sections, u))[t] else 0)
  {
    SectionsAreNonEmptyFiltered(sections, u);
    NonEmptyCounts(FilteredAll(sections, u));
  }

  /** The sections of `ts` that hold an entry, in order. */
  function NonEmpty(ts: seq<MenuSection>): seq<MenuSection> {
    if ts == [] then []
    else (if |ts[0].items| > 0 then [ts[0]] else []) + NonEmpty(ts[1..])
  }

  /** The section filter drops exactly the emptied sections. */
  lemma {:induction false} SectionsAreNonEmptyFiltered(sections: seq<MenuSection>, u: User)
    ensures FilterMenuSections(sections, u) == NonEmpty(FilteredAll(sections, u))
    decreases |sections|
  {
    if sections != [] {
      SectionsAreNonEmptyFiltered(sections[1..], u);
      var all := FilteredAll(sections, u);
      assert all[1..] == FilteredAll(sections[1..], u);
    }
  }

  /** Dropping the empty sections keeps every copy of the others. */
  lemma {:induction false} NonEmptyCounts(ts: seq<MenuSection>)
    ensures forall t :: multiset(NonEmpty(ts))[t] == if |t.items| > 0 then multiset(ts)[t] else 0
    decreases |ts|
  {
    if ts != [] {
      NonEmptyCounts(ts[1..]);
      assert ts == [ts[0]] + ts[1..];
      assert multiset(ts) == multiset{ts[0]} + multiset(ts[1..]);
      var head := if |ts[0].items| > 0 then [ts[0]] else [];
      assert multiset(NonEmpty(ts)) == multiset(head) + multiset(NonEmpty(ts[1..]));
    }
  }

  /** An administrator keeps every entry, so filtering changes nothing. */
  lemma {:induction false} AdminKeepsAll(items: seq<MenuItem>, u: User)
    requires IsAdmin(u)
    ensures FilterMenuItems(items, u) == items
    decreases |items|
  {
    if items != [] {
      AdminKeepsAll(items[1..], u);
      assert [items[0]] + items[1..] == items;
    }
  }

  const DashboardItem: MenuItem := MenuItem("Dashboard", "/", None)
  const AiManagerItem: MenuItem := MenuItem("AI Manager", "/ai-manager", Some(AiManager))
  const UsersItem: MenuItem := MenuItem("Users", "/users", Some(Users))
  const RolesItem: MenuItem := MenuItem("Roles", "/roles", Some(Roles))
  const PermissionsItem: MenuItem := MenuItem("Permissions", "/permissions", Some(PermissionsPage))
  const SettingsItem: MenuItem := MenuItem("Settings", "/settings", Some(Settings))

  /** The admin area before filtering: Settings first for an administrator. */
  function AdminItems(u: User): (items: seq<MenuItem>)
    ensures |items| > 0 && (items[0] == SettingsItem <==> IsAdmin(u))
    ensures SettingsItem in items <==> IsAdmin(u)
  {
    var base := [UsersItem, RolesItem, PermissionsItem];
    if IsAdmin(u) then [SettingsItem] + base else base
  }

  /** Settings is put in front of the same three entries: what follows it
      for an administrator is exactly what everyone else gets. */
  lemma AdminItemsFrame(u: User)
    ensures var items := AdminItems(u);
      && |items| == (if IsAdmin(u) then 4 else 3)
      && items[|items| - 3..] == [UsersItem, RolesItem, PermissionsItem]
  {
  }

  /** The two sections before filtering. */
  function NavMain(u: User): seq<MenuSection> {
    [MenuSection("Menu", "#", [DashboardItem, AiManagerItem]),
     MenuSection("Admin Area", "#", AdminItems(u))]
  }

  /** `getNavData`. The "Menu" section always survives, led by the
      dashboard; an administrator gets both sections unfiltered. */
  function GetNavData(u: User): (nav: seq<MenuSection>)
    ensures 1 <= |nav| <= 2
    ensures nav[0].title == "Menu" && |nav[0].items| > 0 && nav[0].items[0] == DashboardItem
    ensures IsAdmin(u) ==> nav == NavMain(u)
  {
    NavShape(u);
    FilterMenuSections(NavMain(u), u)
  }

  /** How filtering treats the two sections: the menu keeps the dashboard
      first, and the result is the filtered menu followed by the filtered
      admin area when that is not empty. */
  lemma NavShape(u: User)
    ensures var sections := NavMain(u);
      && |Filtered(sections[0], u).items| > 0
      && Filtered(sections[0], u).items[0] == DashboardItem
      && FilterMenuSections(sections, u) ==
           [Filtered(sections[0], u)] + (if |Filtered(sections[1], u).items| > 0 then [Filtered(sections[1], u)] else [])
      && (IsAdmin(u) ==> FilterMenuSections(sections, u) == sections)
  {
    var sections := NavMain(u);
    MenuKeepsDashboard(u);
    FilterTwoSections(sections[0], sections[1], u);
    assert sections == [sections[0], sections[1]];
    if IsAdmin(u) {
      AdminKeepsAll(sections[0].items, u);
      AdminKeepsAll(sections[1].items, u);
    }
  }

  /** The "Menu" entries keep the dashboard first, for every user. */
  lemma MenuKeepsDashboard(u: User)
    ensures var r := FilterMenuItems([DashboardItem, AiManagerItem], u);
      |r| > 0 && r[0] == DashboardItem
  {
    assert Keep(DashboardItem, u);
    assert [DashboardItem, AiManagerItem][1..] == [AiManagerItem];
  }

  /** Filtering two sections keeps each one that is not left empty. */
  lemma FilterTwoSections(a: MenuSection, b: MenuSection, u: User)
    ensures FilterMenuSections([a, b], u) ==
      (if |Filtered(a, u).items| > 0 then [Filtered(a, u)] else [])
      + (if |Filtered(b, u).items| > 0 then [Filtered(b, u)] else [])
  {
    assert [a, b][1..] == [b];
    assert [b][1..] == [];
  }

  /** Only an administrator is shown Settings. */
  lemma SettingsOnlyForAdmin(u: User)
    ensures (exists i, j :: 0 <= i < |GetNavData(u)| && 0 <= j < |GetNavData(u)[i].items|
              && GetNavData(u)[i].items[j] == SettingsItem) <==> IsAdmin(u)
  {
    var sections := NavMain(u);
    var nav := GetNavData(u);
    NavShape(u);
    if IsAdmin(u) {
      assert nav[1].items[0] == SettingsItem;
    } else {
      forall i, j | 0 <= i < |nav| && 0 <= j < |nav[i].items|
        ensures nav[i].items[j] != SettingsItem
      {
        var x := nav[i].items[j];
        assert nav[i] == Filtered(sections[i], u);
        assert x in FilterMenuItems(sections[i].items, u);
        assert x in sections[i].items;
        if i == 0 {
          assert x == DashboardItem || x == AiManagerItem;
        } else {
          assert SettingsItem !in AdminItems(u);
        }
      }
    }
  }

  /** Anyone but an administrator sees the admin area exactly when their
      role grants VIEW on users, roles or permissions. */
  lemma AdminAreaForGrantees(u: User)
    requires !IsAdmin(u)
    ensures |GetNavData(u)| == 2 <==>
      HasViewPermission(u, Users) || HasViewPermission(u, Roles) || HasViewPermission(u, PermissionsPage)
  {
    NavLength(u);
    var items := AdminItems(u);
    NonEmptyIffSomeKept(items, u);
    assert items[0].resource == Some(Users) && items[1].resource == Some(Roles)
        && items[2].resource == Some(PermissionsPage) && |items| == 3;
  }

  /** The navigation has a second section exactly when the admin area
      keeps an entry. */
  lemma NavLength(u: User)
    ensures |GetNavData(u)| == 2 <==> |FilterMenuItems(AdminItems(u), u)| > 0
  {
    NavShape(u);
  }

  /** A filtered list is empty exactly when no entry passes. */
  lemma NonEmptyIffSomeKept(items: seq<MenuItem>, u: User)
    ensures |FilterMenuItems(items, u)| > 0 <==> exists i :: 0 <= i < |items| && Keep(items[i], u)
  {
    var r := FilterMenuItems(items, u);
    if |r| > 0 {
      assert r[0] in items;
    } else {
      forall i | 0 <= i < |items|
        ensures !Keep(items[i], u)
      {
        assert items[i] !in r;
      }
    }
  }
}
