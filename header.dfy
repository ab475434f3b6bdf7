/** The site header of components/common/Header.tsx: which navigation item
    is highlighted for the current path, and the mobile menu's open flag. */
module Header {
  import opened Common

  /** The hrefs of `navItems`, in order. */
  const NavHrefs: seq<string> := ["/", "/completed", "/challenges", "/ranking", "/profile"]

  /** The first href, other than the root, that `path` starts with. */
  function FirstPrefix(hrefs: seq<string>, path: string): (r: Option<string>)
    ensures r.Some? ==> r.value in hrefs && r.value != "/" && StartsWith(path, r.value)
    ensures r.None? <==> forall h :: h in hrefs && h != "/" ==> !StartsWith(path, h)
  {
    if hrefs == [] then None
    else if hrefs[0] != "/" && StartsWith(path, hrefs[0]) then Some(hrefs[0])
    else FirstPrefix(hrefs[1..], path)
  }

  /** The prefix match is the first in list order: no earlier non-root href
      is a prefix of the path. */
  lemma {:induction false} FirstPrefixIsFirst(hrefs: seq<string>, path: string)
    requires FirstPrefix(hrefs, path).Some?
    ensures exists i :: (0 <= i < |hrefs| && hrefs[i] == FirstPrefix(hrefs, path).value
      && forall j :: 0 <= j < i && hrefs[j] != "/" ==> !StartsWith(path, hrefs[j]))
  {
    var v := FirstPrefix(hrefs, path).value;
    if hrefs[0] != "/" && StartsWith(path, hrefs[0]) {
      assert hrefs[0] == v;
    } else {
      var tail := hrefs[1..];
      assert FirstPrefix(tail, path) == Some(v);
      FirstPrefixIsFirst(tail, path);
      var i :| (0 <= i < |tail| && tail[i] == v
        && forall j :: 0 <= j < i && tail[j] != "/" ==> !StartsWith(path, tail[j]));
      forall j | 0 <= j < i + 1 && hrefs[j] != "/"
        ensures !StartsWith(path, hrefs[j])
      {
        if j > 0 {
          assert hrefs[j] == tail[j - 1];
        }
      }
      assert hrefs[i + 1] == v;
    }
  }

  /** `activeHref`: the item equal to the path; else the first non-root
      item the path starts with; else the root. A missing path has neither. */
  function ActiveHref(pathname: Option<string>): (r: string)
    ensures r in NavHrefs
    ensures pathname.Some? && pathname.value in NavHrefs ==> r == pathname.value
    ensures r != "/" ==> pathname.Some? && StartsWith(pathname.value, r)
    ensures pathname.None? ==> r == "/"
  {
    if pathname.Some? && pathname.value in NavHrefs then pathname.value
    else if pathname.None? then "/"
    else FirstPrefix(NavHrefs, pathname.value).GetOr("/")
  }

  /** The root is highlighted for a path outside the menu only when no
      other item is a prefix of it, and otherwise the first such item is. */
  lemma {:induction false} ActiveHrefForNestedPath(path: string)
    requires path !in NavHrefs
    ensures ActiveHref(Some(path)) == "/" <==> forall h :: h in NavHrefs && h != "/" ==> !StartsWith(path, h)
    ensures ActiveHref(Some(path)) != "/" ==> ActiveHref(Some(path)) == FirstPrefix(NavHrefs, path).value
  {
  }

  /** The hrefs are distinct, so exactly one item is highlighted. */
  lemma {:induction false} ExactlyOneActive(pathname: Option<string>)
    ensures exists i :: (0 <= i < |NavHrefs| && NavHrefs[i] == ActiveHref(pathname)
      && forall j :: 0 <= j < |NavHrefs| && NavHrefs[j] == ActiveHref(pathname) ==> j == i)
  {
    NavHrefsDistinct();
    UniqueIndex(NavHrefs, ActiveHref(pathname));
  }

  lemma {:induction false} NavHrefsDistinct()
    ensures NoRepeats(NavHrefs)
  {
  }

  /** The header's one piece of state. */
  class MobileMenu {
    var mobileMenuOpen: bool

    constructor ()
      ensures !mobileMenuOpen
    {
      mobileMenuOpen := false;
    }

    /** The menu button. */
    method Toggle()
      modifies this
      ensures mobileMenuOpen == !old(mobileMenuOpen)
    {
      mobileMenuOpen := !mobileMenuOpen;
    }

    /** A click on the logo or on an item of the mobile menu. */
    method Close()
      modifies this
      ensures !mobileMenuOpen
    {
      mobileMenuOpen := false;
    }
  }
}
