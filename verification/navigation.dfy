/** The site navigation: which entry of the menu is highlighted for the
    current path, and whether the mobile menu is open. */
module Navigation {
  import opened Strings

  datatype NavItem = NavItem(href: string, caption: string)

  /** The three entries, in menu order. */
  const NavigationItems: seq<NavItem> := [
    NavItem("/", "Marketplace"),
    NavItem("/collection", "My Collection"),
    NavItem("/trades", "Trade Center")
  ]

  // ---------------------------------------------------------------- active

  /** `isActive`: the root entry matches the root path only; any other entry
      matches every path that starts with its address, so there is no check
      for a segment boundary. */
  predicate IsActive(pathname: string, href: string)
    ensures pathname == href ==> IsActive(pathname, href)
    ensures IsActive(pathname, href) ==> |href| <= |pathname|
  {
    if href == "/" then pathname == "/" else StartsWith(pathname, href)
  }

  /** The match, stated on characters. */
  lemma IsActiveMeans(pathname: string, href: string)
    ensures href == "/" ==> (IsActive(pathname, href) <==> pathname == "/")
    ensures href != "/" ==>
      (IsActive(pathname, href) <==> |href| <= |pathname| && forall i :: 0 <= i < |href| ==> pathname[i] == href[i])
  {
    if href != "/" && |href| <= |pathname| && (forall i :: 0 <= i < |href| ==> pathname[i] == href[i]) {
      assert pathname[..|href|] == href;
    }
  }

  /** The collection entry is highlighted below its own address, and also on
      any path that merely begins with the same letters. */
  lemma CollectionPrefixMatches()
    ensures IsActive("/collection/x", "/collection")
    ensures IsActive("/collectionfoo", "/collection")
    ensures !IsActive("/collection", "/")
  {
    assert "/collection" <= "/collection/x";
    assert "/collection" <= "/collectionfoo";
  }

  /** On the root path only the root entry is highlighted. */
  lemma RootHighlightsOnlyMarketplace(i: nat)
    requires i < |NavigationItems|
    ensures IsActive("/", NavigationItems[i].href) <==> i == 0
  {
    if i > 0 {
      assert NavigationItems[i].href[1] != "/"[0];
    }
  }

  /** Whatever the path, at most one entry of the menu is highlighted. */
  lemma AtMostOneActive(pathname: string, i: nat, j: nat)
    requires i < |NavigationItems| && j < |NavigationItems|
    ensures IsActive(pathname, NavigationItems[i].href) && IsActive(pathname, NavigationItems[j].href) ==> i == j
  {
    var a, b := NavigationItems[i].href, NavigationItems[j].href;
    if i != j && IsActive(pathname, a) {
      if i == 0 {
        assert pathname == "/" && |b| > 1;
      } else if j == 0 {
        assert |pathname| >= |a| > 1;
      } else {
        assert pathname[1] == a[1] != b[1];
      }
    }
  }

  // ---------------------------------------------------------------- menu

  /** The mobile menu's state. */
  class NavMenu {
    var isMenuOpen: bool

    constructor ()
      ensures !isMenuOpen
    {
      isMenuOpen := false;
    }

    /** The menu button flips the menu. */
    method ToggleMenu()
      modifies this
      ensures isMenuOpen == !old(isMenuOpen)
    {
      isMenuOpen := !isMenuOpen;
    }

    /** The backdrop and the close button close the menu. */
    method CloseMenu()
      modifies this
      ensures !isMenuOpen
    {
      isMenuOpen := false;
    }

    /** A link in the mobile menu closes the menu and goes to its address. */
    method FollowMobileLink(href: string) returns (target: string)
      modifies this
      ensures !isMenuOpen && target == href
    {
      CloseMenu();
      target := href;
    }
  }
}
