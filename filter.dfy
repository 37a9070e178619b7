/**
 * The content filter (spider/content/filter.py): which CSS selectors are
 * removed from a page before its text is searched, and the filter's
 * description. Applying the selectors to a parsed page is not modelled.
 */
module Filter {
  import opened Wrappers
  import opened Strings

  /** The four kinds of page furniture the filter can keep or remove. */
  datatype Group = Menus | Headers | Footers | Sidebars

  /** Groups in the order the description names them. */
  const DescriptionOrder: seq<Group> := [Headers, Menus, Footers, Sidebars]

  function GroupSelectors(g: Group): (r: seq<string>)
    ensures |r| == (if g == Menus then 11 else 5)
  {
    match g
    case Menus =>
      ["nav", ".nav", ".navigation", ".menu", ".navbar", "#navbar", "#nav",
       "[role=\"navigation\"]", ".main-menu", ".site-menu", ".top-menu"]
    case Headers => ["header", ".header", "#header", ".site-header", ".page-header"]
    case Footers => ["footer", ".footer", "#footer", ".site-footer", ".page-footer"]
    case Sidebars => ["aside", ".sidebar", "#sidebar", ".side-menu", ".widget-area"]
  }

  function GroupName(g: Group): string {
    match g
    case Menus => "menus"
    case Headers => "headers"
    case Footers => "footers"
    case Sidebars => "sidebars"
  }

  datatype ContentFilter = ContentFilter(
    includeHeaders: bool, includeMenus: bool, includeFooters: bool, includeSidebars: bool,
    customExcludeSelectors: seq<string>)
  {
    predicate Includes(g: Group) {
      match g
      case Menus => includeMenus
      case Headers => includeHeaders
      case Footers => includeFooters
      case Sidebars => includeSidebars
    }
  }

  /** The constructor: missing custom selectors become the empty list. */
  function NewFilter(includeHeaders: bool, includeMenus: bool, includeFooters: bool, includeSidebars: bool,
                     customExcludeSelectors: Option<seq<string>>): (f: ContentFilter)
    ensures forall g :: f.Includes(g) <==>
      (match g
       case Menus => includeMenus
       case Headers => includeHeaders
       case Footers => includeFooters
       case Sidebars => includeSidebars)
    ensures customExcludeSelectors.None? ==> f.customExcludeSelectors == []
    ensures customExcludeSelectors.Some? ==> f.customExcludeSelectors == customExcludeSelectors.value
  {
    ContentFilter(includeHeaders, includeMenus, includeFooters, includeSidebars,
                  customExcludeSelectors.GetOr([]))
  }

  /** A filter built with every default: headers kept, menus, footers and sidebars removed. */
  function DefaultFilter(): (f: ContentFilter)
    ensures f.Includes(Headers) && !f.Includes(Menus) && !f.Includes(Footers) && !f.Includes(Sidebars)
    ensures f.customExcludeSelectors == []
  {
    NewFilter(true, false, false, false, None)
  }

  /** What one group contributes: its selectors when the group is removed, nothing when kept. */
  function Piece(f: ContentFilter, g: Group): (r: seq<string>)
    ensures r == [] <==> f.Includes(g)
  {
    if f.Includes(g) then [] else GroupSelectors(g)
  }

  /** `get_excluded_selectors`: menus, headers, footers, sidebars, then the custom selectors. */
  function ExcludedSelectors(f: ContentFilter): (r: seq<string>)
    ensures |r| == (if f.includeMenus then 0 else 11) + (if f.includeHeaders then 0 else 5)
                 + (if f.includeFooters then 0 else 5) + (if f.includeSidebars then 0 else 5)
                 + |f.customExcludeSelectors|
    ensures r[|r| - |f.customExcludeSelectors|..] == f.customExcludeSelectors
  {
    Piece(f, Menus) + Piece(f, Headers) + Piece(f, Footers) + Piece(f, Sidebars) + f.customExcludeSelectors
  }

  /** Where a removed group's selectors start: after those of the removed groups emitted before it. */
  function Offset(f: ContentFilter, g: Group): nat {
    match g
    case Menus => 0
    case Headers => |Piece(f, Menus)|
    case Footers => |Piece(f, Menus)| + |Piece(f, Headers)|
    case Sidebars => |Piece(f, Menus)| + |Piece(f, Headers)| + |Piece(f, Footers)|
  }

  lemma SliceMiddle(a: seq<string>, b: seq<string>, c: seq<string>)
    ensures (a + b + c)[|a|..|a| + |b|] == b
  {
    assert forall i :: 0 <= i < |b| ==> (a + b + c)[|a| + i] == b[i];
  }

  /** Each removed group's selectors appear together, in their own order, at `Offset`. */
  lemma ExcludedGroupPlacement(f: ContentFilter, g: Group)
    requires !f.Includes(g)
    ensures Offset(f, g) + |GroupSelectors(g)| <= |ExcludedSelectors(f)|
    ensures ExcludedSelectors(f)[Offset(f, g)..Offset(f, g) + |GroupSelectors(g)|] == GroupSelectors(g)
  {
    var m, h, o, s, c := Piece(f, Menus), Piece(f, Headers), Piece(f, Footers), Piece(f, Sidebars),
                         f.customExcludeSelectors;
    var r := ExcludedSelectors(f);
    assert r == m + h + o + s + c;
    match g
    case Menus =>
      Assoc(m, h, o);
      Assoc(m, h + o, s);
      Assoc(m, h + o + s, c);
      SlicePrefix(m, h + o + s + c);
    case Headers =>
      Assoc(m + h, o, s);
      Assoc(m + h, o + s, c);
      SliceMiddle(m, h, o + s + c);
    case Footers =>
      Assoc(m + h + o, s, c);
      SliceMiddle(m + h, o, s + c);
    case Sidebars =>
      SliceMiddle(m + h + o, s, c);
  }

  lemma Assoc(a: seq<string>, b: seq<string>, c: seq<string>)
    ensures a + b + c == a + (b + c)
  {
  }

  lemma SlicePrefix(a: seq<string>, b: seq<string>)
    ensures |a| <= |a + b| && (a + b)[0..|a|] == a
  {
  }

  /** A selector is removed iff it belongs to a removed group or is one of the custom selectors. */
  lemma ExcludedMembers(f: ContentFilter, x: string)
    ensures x in ExcludedSelectors(f) <==>
      x in f.customExcludeSelectors || exists g :: !f.Includes(g) && x in GroupSelectors(g)
  {
    if exists g :: !f.Includes(g) && x in GroupSelectors(g) {
      var g :| !f.Includes(g) && x in GroupSelectors(g);
      assert x in Piece(f, g);
    }
  }

  /** Keeping more groups never removes more: every selector removed then was removed before. */
  lemma KeepingMoreRemovesLess(f: ContentFilter, f': ContentFilter, x: string)
    requires forall g :: f.Includes(g) ==> f'.Includes(g)
    requires f'.customExcludeSelectors == f.customExcludeSelectors
    requires x in ExcludedSelectors(f')
    ensures x in ExcludedSelectors(f)
  {
    ExcludedMembers(f, x);
    ExcludedMembers(f', x);
  }

  /** The groups a filter keeps, in the order the description names them. */
  function IncludedGroups(f: ContentFilter, groups: seq<Group>): (r: seq<Group>)
    ensures forall g :: g in r <==> g in groups && f.Includes(g)
    ensures forall i :: 0 <= i < |r| ==> f.Includes(r[i])
  {
    if groups == [] then []
    else (if f.Includes(groups[0]) then [groups[0]] else []) + IncludedGroups(f, groups[1..])
  }

  /**
   * Filtering distributes over concatenation, so the kept groups keep their
   * relative order: whatever is kept from `a` comes before whatever is kept from `b`.
   */
  lemma {:induction false} IncludedGroupsAppend(f: ContentFilter, a: seq<Group>, b: seq<Group>)
    ensures IncludedGroups(f, a + b) == IncludedGroups(f, a) + IncludedGroups(f, b)
  {
    if a == [] {
      assert a + b == b;
    } else {
      assert (a + b)[1..] == a[1..] + b;
      IncludedGroupsAppend(f, a[1..], b);
    }
  }

  lemma IncludedGroupsOne(f: ContentFilter, g: Group)
    ensures IncludedGroups(f, [g]) == if f.Includes(g) then [g] else []
  {
    assert [g][1..] == [];
  }

  /** The names `__str__` collects, one flag after another. */
  function IncludedNames(f: ContentFilter): seq<string> {
    (if f.includeHeaders then ["headers"] else []) + (if f.includeMenus then ["menus"] else [])
    + (if f.includeFooters then ["footers"] else []) + (if f.includeSidebars then ["sidebars"] else [])
  }

  const ExcludesAll: string := "ContentFilter(Excludes: headers, menus, footers, sidebars)"

  const IncludesPrefix: string := "ContentFilter(Includes: "

  /** `__str__`: the kept groups, headers first, or the fixed text when none is kept. */
  function Describe(f: ContentFilter): (r: string)
    ensures r == ExcludesAll <==> forall g :: !f.Includes(g)
    ensures StartsWith(r, IncludesPrefix) <==> exists g :: f.Includes(g)
    ensures (exists g :: f.Includes(g)) ==> r == IncludesPrefix + Join(IncludedNames(f), ", ") + ")"
  {
    var kept := IncludedGroups(f, DescriptionOrder);
    DescribedNames(f);
    if kept != [] then
      var r := IncludesPrefix + Join(Names(kept), ", ") + ")";
      assert r[15] != ExcludesAll[15];
      assert kept[0] in DescriptionOrder;
      r
    else
      EveryGroupDescribed();
      assert ExcludesAll[15] != IncludesPrefix[15];
      ExcludesAll
  }

  lemma EveryGroupDescribed()
    ensures forall g :: g in DescriptionOrder
  {
    forall g ensures g in DescriptionOrder {
      match g
      case Headers => assert DescriptionOrder[0] == g;
      case Menus => assert DescriptionOrder[1] == g;
      case Footers => assert DescriptionOrder[2] == g;
      case Sidebars => assert DescriptionOrder[3] == g;
    }
  }

  function Names(groups: seq<Group>): (r: seq<string>)
    ensures |r| == |groups|
    ensures forall i :: 0 <= i < |groups| ==> r[i] == GroupName(groups[i])
  {
    if groups == [] then [] else [GroupName(groups[0])] + Names(groups[1..])
  }

  lemma {:induction false} NamesAppend(a: seq<Group>, b: seq<Group>)
    ensures Names(a + b) == Names(a) + Names(b)
  {
    assert |Names(a + b)| == |Names(a) + Names(b)|;
    forall i | 0 <= i < |a + b|
      ensures Names(a + b)[i] == (Names(a) + Names(b))[i]
    {
      if i >= |a| {
        assert (a + b)[i] == b[i - |a|];
      }
    }
  }

  /** The kept groups come in the order headers, menus, footers, sidebars, and their names are the ones `__str__` collects. */
  lemma DescriptionOrderKept(f: ContentFilter)
    ensures IncludedGroups(f, DescriptionOrder) ==
      (if f.includeHeaders then [Headers] else []) + (if f.includeMenus then [Menus] else [])
      + (if f.includeFooters then [Footers] else []) + (if f.includeSidebars then [Sidebars] else [])
  {
    var h := if f.includeHeaders then [Headers] else [];
    var m := if f.includeMenus then [Menus] else [];
    var o := if f.includeFooters then [Footers] else [];
    var d := if f.includeSidebars then [Sidebars] else [];
    var a := [Headers] + [Menus];
    var b := a + [Footers];
    assert IncludedGroups(f, a) == h + m by {
      IncludedGroupsAppend(f, [Headers], [Menus]);
      IncludedGroupsOne(f, Headers);
      IncludedGroupsOne(f, Menus);
    }
    assert IncludedGroups(f, b) == h + m + o by {
      IncludedGroupsAppend(f, a, [Footers]);
      IncludedGroupsOne(f, Footers);
    }
    assert IncludedGroups(f, DescriptionOrder) == h + m + o + d by {
      assert DescriptionOrder == b + [Sidebars];
      IncludedGroupsAppend(f, b, [Sidebars]);
      IncludedGroupsOne(f, Sidebars);
    }
  }

  /** The names of the kept groups are the ones `__str__` collects, in its order. */
  lemma DescribedNames(f: ContentFilter)
    ensures Names(IncludedGroups(f, DescriptionOrder)) == IncludedNames(f)
  {
    DescriptionOrderKept(f);
    var h := if f.includeHeaders then [Headers] else [];
    var m := if f.includeMenus then [Menus] else [];
    var o := if f.includeFooters then [Footers] else [];
    var d := if f.includeSidebars then [Sidebars] else [];
    NamesAppend(h + m + o, d);
    NamesAppend(h + m, o);
    NamesAppend(h, m);
    NamesOptional(f.includeHeaders, Headers);
    NamesOptional(f.includeMenus, Menus);
    NamesOptional(f.includeFooters, Footers);
    NamesOptional(f.includeSidebars, Sidebars);
  }

  lemma NamesOptional(b: bool, g: Group)
    ensures Names(if b then [g] else []) == if b then [GroupName(g)] else []
  {
  }
}
