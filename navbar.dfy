/** The navigation bar (src/Components/Navbar.js): the highlighted item is
    derived from the URL and updated on click, and the profile menu opens
    and closes. */
module NavBar {
  import opened Wrappers
  import Text

  datatype NavItem = NavItem(name: string, href: string, current: bool)

  const NavNames: seq<string> := ["Dashboard", "Courses", "Quizzes"]
  const NavHrefs: seq<string> := ["/dashboard", "/courses", "/quizzes"]

  /** `href.split('/')[3]` with its first letter upper-cased; `None` where the
      URL has fewer than four segments and the code reads `undefined.charAt`. */
  function ActiveFromUrl(href: string): (r: Option<string>)
    ensures r.Some? <==> Text.Occurrences(href, '/') >= 3
  {
    Text.SplitJoin(href, '/');
    var segments := Text.Split(href, '/');
    if |segments| > 3 then Some(Text.Capitalize(segments[3])) else None
  }

  /** For `scheme//host/segment...` the active item is the capitalised first
      path segment, whatever follows it. */
  lemma ActiveIsFirstPathSegment(scheme: string, host: string, segment: string, rest: string)
    requires '/' !in scheme && '/' !in host && '/' !in segment
    requires rest == [] || rest[0] == '/'
    ensures ActiveFromUrl(scheme + "//" + host + "/" + segment + rest) == Some(Text.Capitalize(segment))
  {
    var href := scheme + "//" + host + "/" + segment + rest;
    var tail := segment + rest;
    assert href == scheme + ['/'] + ([] + ['/'] + (host + ['/'] + tail));
    Text.SplitAround(scheme, [] + ['/'] + (host + ['/'] + tail), '/');
    Text.SplitAround([], host + ['/'] + tail, '/');
    Text.SplitAround(host, tail, '/');
    Text.SplitWithoutSeparator(scheme, '/');
    Text.SplitWithoutSeparator(host, '/');
    if rest == [] {
      assert tail == segment;
      Text.SplitWithoutSeparator(segment, '/');
    } else {
      assert tail == segment + ['/'] + rest[1..];
      Text.SplitAround(segment, rest[1..], '/');
      Text.SplitWithoutSeparator(segment, '/');
    }
    assert Text.Split(href, '/') == [scheme, [], host] + Text.Split(tail, '/');
  }

  /** `navItems`: an item is current exactly when its name is the active
      item, so at most one is. */
  function NavItems(active: Option<string>): (items: seq<NavItem>)
    ensures |items| == |NavNames|
    ensures forall i :: 0 <= i < |items| ==> items[i].name == NavNames[i] && items[i].href == NavHrefs[i]
    ensures forall i :: 0 <= i < |items| ==> (items[i].current <==> active == Some(NavNames[i]))
    ensures forall i, j :: 0 <= i < j < |items| ==> !(items[i].current && items[j].current)
  {
    seq(|NavNames|, i requires 0 <= i < |NavNames| => NavItem(NavNames[i], NavHrefs[i], active == Some(NavNames[i])))
  }

  /** The bar's state. */
  class Bar {
    var activeNavItem: Option<string>
    var isOpen: bool

    constructor ()
      ensures activeNavItem == None && !isOpen
    {
      activeNavItem := None;
      isOpen := false;
    }

    function Items(): seq<NavItem>
      reads this
    {
      NavItems(activeNavItem)
    }

    /** The effect run on every location change; `failed` is the thrown
        TypeError, after which nothing is updated. */
    method LocationChanged(href: string) returns (failed: bool)
      modifies this`activeNavItem
      ensures failed <==> ActiveFromUrl(href) == None
      ensures !failed ==> activeNavItem == ActiveFromUrl(href)
      ensures failed ==> activeNavItem == old(activeNavItem)
    {
      var active := ActiveFromUrl(href);
      failed := active == None;
      if !failed {
        activeNavItem := active;
      }
    }

    /** `handleNavClick`: the clicked item becomes the only current one. */
    method HandleNavClick(name: string)
      modifies this`activeNavItem
      ensures activeNavItem == Some(name)
      ensures forall i :: 0 <= i < |Items()| ==> (Items()[i].current <==> NavNames[i] == name)
    {
      activeNavItem := Some(name);
    }

    /** The avatar button flips the menu. */
    method Toggle()
      modifies this`isOpen
      ensures isOpen == !old(isOpen)
    {
      isOpen := !isOpen;
    }

    /** A mousedown anywhere: it closes the menu when the wrapper holding the
        avatar button and the menu is mounted (a token is present) and the
        click lands outside that wrapper; a click on the avatar button counts
        as inside. Otherwise nothing changes. */
    method MouseDown(wrapperMounted: bool, insideWrapper: bool)
      modifies this`isOpen
      ensures isOpen == (old(isOpen) && !(wrapperMounted && !insideWrapper))
    {
      if wrapperMounted && !insideWrapper {
        isOpen := false;
      }
    }

    /** Signing out closes the menu (the token removal and redirect are
        outside this model). */
    method Logout()
      modifies this`isOpen
      ensures !isOpen
    {
      isOpen := false;
    }
  }
}
