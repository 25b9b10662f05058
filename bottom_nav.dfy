/** The bottom navigation bar: four fixed destinations, the one whose path
    equals the current path highlighted, hidden on the sign-in pages and
    whenever nobody is signed in. */
module Navigation {
  datatype NavItem = NavItem(href: string, title: string)

  const NavItems: seq<NavItem> := [
    NavItem("/", "Início"),
    NavItem("/library", "Biblioteca"),
    NavItem("/profile", "Perfil"),
    NavItem("/settings", "Config")
  ]

  /** A rendered link and whether it is highlighted. */
  datatype NavLink = NavLink(item: NavItem, active: bool)

  predicate Hidden(authLoading: bool, signedIn: bool, pathname: string)
  {
    authLoading || !signedIn || pathname == "/login" || pathname == "/signup"
  }

  /** The links shown: none when hidden, otherwise all four in order. */
  function BottomNav(authLoading: bool, signedIn: bool, pathname: string): seq<NavLink>
  {
    if Hidden(authLoading, signedIn, pathname) then []
    else seq(|NavItems|, i requires 0 <= i < |NavItems| => NavLink(NavItems[i], pathname == NavItems[i].href))
  }

  /** When shown, the bar lists the four destinations in order, highlights a
      link exactly when its path is the current one, and so highlights at
      most one link; a sub-page such as "/library/x" highlights none. */
  lemma BottomNavSpec(authLoading: bool, signedIn: bool, pathname: string)
    ensures Hidden(authLoading, signedIn, pathname) ==> BottomNav(authLoading, signedIn, pathname) == []
    ensures !Hidden(authLoading, signedIn, pathname) ==>
              var links := BottomNav(authLoading, signedIn, pathname);
              |links| == |NavItems| &&
              (forall i :: 0 <= i < |links| ==> links[i].item == NavItems[i] && (links[i].active <==> NavItems[i].href == pathname)) &&
              (forall i, j :: 0 <= i < j < |links| ==> !(links[i].active && links[j].active))
  {
    if !Hidden(authLoading, signedIn, pathname) {
      var links := BottomNav(authLoading, signedIn, pathname);
      assert "/library"[1] != "/profile"[1] && "/library"[1] != "/settings"[1] && "/profile"[1] != "/settings"[1];
      forall i, j | 0 <= i < j < |links| ensures !(links[i].active && links[j].active) {
        assert NavItems[i].href != NavItems[j].href;
      }
    }
  }
}
