/**
 * The sidebar: the accordion of menus (`openMenu`, at most one menu
 * expanded), the `classNames` helper that builds the class attributes,
 * and the highlighting of the link of the current path.
 */
module Sidebar {
  import opened Common

  /** `openMenu`: the name of the expanded menu, or `null`. */
  type OpenMenu = Option<string>

  /** `handleMenuToggle(name)`: the open menu closes; any other menu opens,
      which closes the one that was open. */
  function Toggle(open: OpenMenu, name: string): (r: OpenMenu)
    ensures r == Some(name) <==> open != Some(name)
    ensures forall other :: other != name ==> r != Some(other)
  {
    if open == Some(name) then None else Some(name)
  }

  /** Toggling a menu twice: an open menu is open again, otherwise every
      menu ends closed. */
  lemma ToggleTwice(open: OpenMenu, name: string)
    ensures open == Some(name) ==> Toggle(Toggle(open, name), name) == Some(name)
    ensures open != Some(name) ==> Toggle(Toggle(open, name), name) == None
  {
  }

  /** How many of the named menus are expanded. */
  function ExpandedCount(open: OpenMenu, names: seq<string>): nat
    decreases |names|
  {
    if |names| == 0 then 0
    else (if open == Some(names[0]) then 1 else 0) + ExpandedCount(open, names[1..])
  }

  predicate DistinctNames(names: seq<string>) {
    forall i, j :: 0 <= i < j < |names| ==> names[i] != names[j]
  }

  /** With distinct menu names, at most one menu is expanded, and one is
      exactly when `openMenu` names a menu of the list. */
  lemma {:induction false} AtMostOneExpanded(open: OpenMenu, names: seq<string>)
    requires DistinctNames(names)
    ensures ExpandedCount(open, names) <= 1
    ensures ExpandedCount(open, names) == 1 <==> open.Some? && open.value in names
    decreases |names|
  {
    if |names| > 0 {
      assert DistinctNames(names[1..]) by {
        forall i, j | 0 <= i < j < |names[1..]|
          ensures names[1..][i] != names[1..][j]
        {
          assert names[1..][i] == names[i + 1] && names[1..][j] == names[j + 1];
        }
      }
      AtMostOneExpanded(open, names[1..]);
      assert names == [names[0]] + names[1..];
      if open == Some(names[0]) {
        assert names[0] !in names[1..] by {
          forall k | 0 <= k < |names[1..]|
            ensures names[1..][k] != names[0]
          {
            assert names[1..][k] == names[k + 1];
          }
        }
      }
    }
  }

  /** After any toggle of a listed menu, exactly that menu or none is
      expanded. */
  lemma ToggleKeepsAtMostOne(open: OpenMenu, names: seq<string>, name: string)
    requires DistinctNames(names) && name in names
    ensures ExpandedCount(Toggle(open, name), names) == (if open == Some(name) then 0 else 1)
  {
    AtMostOneExpanded(Toggle(open, name), names);
  }

  /** One argument of `classNames`: a class string, or a falsy value
      (`false`, `null`, `undefined`). */
  type ClassArg = Option<string>

  /** `classes.filter(Boolean)`: the non-empty class strings, in order. */
  function Kept(args: seq<ClassArg>): (r: seq<string>)
    ensures forall s :: s in r ==> s != "" && Some(s) in args
    ensures forall a :: a in args && a.Some? && a.value != "" ==> a.value in r
    ensures |r| <= |args|
    decreases |args|
  {
    if |args| == 0 then []
    else
      assert args == [args[0]] + args[1..];
      (if args[0].Some? && args[0].value != "" then [args[0].value] else []) + Kept(args[1..])
  }

  /** `join(' ')`. */
  function Join(parts: seq<string>): (s: string)
    decreases |parts|
  {
    if |parts| == 0 then ""
    else if |parts| == 1 then parts[0]
    else parts[0] + " " + Join(parts[1..])
  }

  /** `classNames(...classes)`. */
  function ClassNames(args: seq<ClassArg>): string {
    Join(Kept(args))
  }

  /** The position of the first space. */
  function FirstSpace(s: string): (i: nat)
    requires ' ' in s
    ensures i < |s| && s[i] == ' ' && ' ' !in s[..i]
    decreases |s|
  {
    if s[0] == ' ' then 0
    else
      assert ' ' in s[1..] by {
        var k :| 0 <= k < |s| && s[k] == ' ';
        assert s[1..][k - 1] == ' ';
      }
      var j := FirstSpace(s[1..]);
      assert s[..j + 1] == [s[0]] + s[1..][..j];
      j + 1
  }

  /** `split(' ')`: the pieces between single spaces. */
  function Split(s: string): (r: seq<string>)
    ensures |r| >= 1
    decreases |s|
  {
    if ' ' !in s then [s]
    else
      var i := FirstSpace(s);
      [s[..i]] + Split(s[i + 1..])
  }

  /** Splitting joined words on spaces gives the words back, provided no
      word contains a space. */
  lemma {:induction false} SplitJoin(parts: seq<string>)
    requires |parts| >= 1
    requires forall k :: 0 <= k < |parts| ==> ' ' !in parts[k]
    ensures Split(Join(parts)) == parts
    decreases |parts|
  {
    if |parts| > 1 {
      var p0 := parts[0];
      var rest := Join(parts[1..]);
      var s := p0 + " " + rest;
      assert s[|p0|] == ' ';
      assert forall k :: 0 <= k < |p0| ==> s[k] == p0[k] != ' ';
      var i := FirstSpace(s);
      assert i >= |p0|;
      assert i <= |p0| by {
        assert forall k :: 0 <= k < i ==> s[..i][k] == s[k] != ' ';
      }
      assert s[..i] == p0;
      assert s[i + 1..] == rest;
      SplitJoin(parts[1..]);
    }
  }

  /** The class attribute splits back into exactly the kept classes when
      none of them holds a space. */
  lemma ClassNamesRoundTrip(args: seq<ClassArg>)
    requires |Kept(args)| >= 1
    requires forall a :: a in args && a.Some? ==> ' ' !in a.value
    ensures Split(ClassNames(args)) == Kept(args)
  {
    var kept := Kept(args);
    forall k | 0 <= k < |kept|
      ensures ' ' !in kept[k]
    {
      assert kept[k] in kept;
    }
    SplitJoin(kept);
  }

  /** Falsy arguments make no difference: `classNames` gives the empty
      string when there are none to keep. */
  lemma {:induction false} ClassNamesOfFalsy(args: seq<ClassArg>)
    requires forall a :: a in args ==> a.None? || a.value == ""
    ensures Kept(args) == [] && ClassNames(args) == ""
    decreases |args|
  {
    if |args| > 0 {
      assert args[0] in args;
      ClassNamesOfFalsy(args[1..]);
    }
  }

  /** Joining a list whose first word is non-empty gives a non-empty
      string. */
  lemma JoinNonEmpty(parts: seq<string>)
    requires |parts| >= 1 && parts[0] != ""
    ensures Join(parts) != ""
  {
    if |parts| > 1 {
      assert |Join(parts)| >= |parts[0]|;
    }
  }

  /** Conversely, `classNames` gives the empty string only when every
      argument is falsy. */
  lemma EmptyOnlyFromFalsy(args: seq<ClassArg>)
    requires ClassNames(args) == ""
    ensures forall a :: a in args ==> a.None? || a.value == ""
  {
    var kept := Kept(args);
    if |kept| > 0 {
      assert kept[0] in kept;
      JoinNonEmpty(kept);
    }
  }

  /** `classNames(current ? active : idle, base)`, the pattern of every
      highlighted entry: the attribute starts with the highlight classes
      exactly when the entry is current, as long as the two lists start
      differently. */
  function HighlightClass(current: bool, active: string, idle: string, base: string): (c: string)
    requires active != "" && idle != "" && base != "" && active[0] != idle[0]
    ensures IsPrefix(active, c) <==> current
    ensures IsPrefix(if current then active else idle, c)
  {
    var first := if current then active else idle;
    var args := [Some(first), Some(base)];
    assert args[1..] == [Some(base)] && args[1..][1..] == [];
    assert Kept(args) == [first, base];
    var parts := [first, base];
    assert parts[1..] == [base];
    assert Join(parts) == first + " " + Join([base]);
    var c := ClassNames(args);
    assert c == first + " " + base;
    assert c[..|first|] == first;
    c
  }

  // The class lists of the sidebar entries, written one class per piece.
  const ActiveLinkClass := "bg-primary-800 " + "text-white"
  const IdleLinkClass := "text-gray-400 " + "hover:text-white " + "hover:bg-gray-800"
  const LinkBaseClass := "group " + "flex " + "gap-x-3 " + "rounded-md " + "p-2 " + "text-sm " + "leading-6 " + "font-semibold"
  const MenuBaseClass := "flex " + "items-center " + "w-full " + "text-right " + "rounded-md " + "p-2 " + "gap-x-3 "
                         + "text-sm " + "leading-6 " + "font-semibold"
  const ActiveChildClass := "bg-primary-700 " + "text-white"
  const IdleChildClass := "text-gray-400 " + "hover:text-white " + "hover:bg-gray-700"
  const ChildBaseClass := "flex " + "rounded-md " + "py-2 " + "pr-12 " + "text-sm " + "leading-6"

  /** A link is the current one when `location.pathname` is its `href`. */
  predicate IsCurrent(pathname: string, href: string) {
    pathname == href
  }

  /** The class attribute of a top-level link: highlighted exactly when the
      link is the current one. */
  function LinkClass(pathname: string, href: string): (c: string)
    ensures IsPrefix(ActiveLinkClass, c) <==> IsCurrent(pathname, href)
  {
    HighlightClass(pathname == href, ActiveLinkClass, IdleLinkClass, LinkBaseClass)
  }

  /** The class attribute of a link inside a menu: highlighted exactly when
      the link is the current one. */
  function ChildLinkClass(pathname: string, href: string): (c: string)
    ensures IsPrefix(ActiveChildClass, c) <==> IsCurrent(pathname, href)
  {
    HighlightClass(pathname == href, ActiveChildClass, IdleChildClass, ChildBaseClass)
  }

  /** The class attribute of a menu's button: highlighted exactly when the
      menu is the expanded one. */
  function MenuButtonClass(open: OpenMenu, name: string): (c: string)
    ensures IsPrefix(ActiveLinkClass, c) <==> open == Some(name)
  {
    HighlightClass(open == Some(name), ActiveLinkClass, IdleLinkClass, MenuBaseClass)
  }

  /** Toggling a menu flips the highlight of its button. */
  lemma ToggleFlipsHighlight(open: OpenMenu, name: string)
    ensures IsPrefix(ActiveLinkClass, MenuButtonClass(Toggle(open, name), name))
        <==> !IsPrefix(ActiveLinkClass, MenuButtonClass(open, name))
  {
  }

  /** A menu entry of the navigation: its name and its links. */
  datatype Menu = Menu(name: string, children: seq<string>)

  /** The links the sidebar shows under the menus: only those of the
      expanded menu. */
  function ShownChildren(menus: seq<Menu>, open: OpenMenu): (r: seq<string>)
    ensures open.None? ==> r == []
    ensures forall href :: href in r ==> exists m :: m in menus && Some(m.name) == open && href in m.children
    ensures forall m, href :: m in menus && Some(m.name) == open && href in m.children ==> href in r
    decreases |menus|
  {
    if |menus| == 0 then []
    else
      assert menus == [menus[0]] + menus[1..];
      (if open == Some(menus[0].name) then menus[0].children else []) + ShownChildren(menus[1..], open)
  }
}
