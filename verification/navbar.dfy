/** The navigation bar: which page link is marked active, the links that
    depend on who is signed in, the social media icons, the mobile menu and
    logout. The browser's stored user is the `stored` field; navigation is
    the `pathname` field. */
module Navbar {
  import opened Wrappers
  import opened FrontendTypes
  import opened SocialMediaAdmin

  datatype NavLink = NavLink(name: string, path: string)

  const NAV_LINKS: seq<NavLink> := [NavLink("Yazılar", "/"), NavLink("Hakkımda", "/about"), NavLink("İletişim", "/contact")]

  /** The home link is active only on the home page itself; any other link
      is active on every path that starts with its own. */
  function IsActive(path: string, pathname: string): (r: bool)
    ensures path == "/" ==> (r <==> pathname == "/")
    ensures path != "/" ==> (r <==> |path| <= |pathname| && pathname[..|path|] == path)
  {
    if path == "/" then pathname == "/" else path <= pathname
  }

  /** On any page at most one of the page links is marked. */
  lemma AtMostOneActive(pathname: string)
    ensures forall i, j ::
              (0 <= i < |NAV_LINKS| && 0 <= j < |NAV_LINKS| &&
               IsActive(NAV_LINKS[i].path, pathname) && IsActive(NAV_LINKS[j].path, pathname)) ==> i == j
  {
    assert IsActive("/about", pathname) ==> |pathname| >= 6 && pathname[1] == "/about"[1] == 'a';
    assert IsActive("/contact", pathname) ==> |pathname| >= 8 && pathname[1] == "/contact"[1] == 'c';
  }

  /** The articles link is marked on the home page and nowhere else; the
      about link is marked on every path below it. */
  lemma ActiveExamples()
    ensures IsActive("/", "/") && !IsActive("/", "/about")
    ensures IsActive("/about", "/about") && IsActive("/about", "/about/me") && !IsActive("/about", "/")
  {
    assert "/about" <= "/about/me";
  }

  /** Where the social panel's manage link goes. */
  const SOCIAL_ADMIN_PATH: string := "/admin/social-media"

  /** The links the desktop bar shows, by path: the page links, login and
      register without a user, the new-post link, and the announcement link
      for an administrator. */
  function VisibleLinks(user: Option<CurrentUser>): (r: seq<string>)
    ensures "/login" in r <==> user.None?
    ensures "/register" in r <==> user.None?
    ensures "/admin/announcement" in r <==> user.Some? && user.value.role == "ADMIN"
    ensures "/" in r && "/about" in r && "/contact" in r && "/admin/posts/new" in r
  {
    var pages := ["/", "/about", "/contact"];
    var auth := if user.None? then ["/login", "/register"] else [];
    var admin := if user.Some? && user.value.role == "ADMIN" then ["/admin/announcement"] else [];
    var r := pages + auth + ["/admin/posts/new"] + admin;
    assert r[0] == "/" && r[1] == "/about" && r[2] == "/contact" && r[|pages| + |auth|] == "/admin/posts/new";
    assert user.None? ==> r[3] == "/login" && r[4] == "/register";
    assert admin != [] ==> r[|r| - 1] == "/admin/announcement";
    r
  }

  /** The icons of the social links, in their order; an unknown name shows
      the Twitter icon. This is the intended lookup: the same `IconMap`
      literal as written answers inherited names, as
      `SocialMediaAdmin.IconForAsWritten` shows. */
  function SocialIcons(links: seq<SocialMedia>): (r: seq<string>)
    ensures |r| == |links|
    ensures forall i :: 0 <= i < |links| ==> r[i] in ICON_NAMES
    ensures forall i :: 0 <= i < |links| ==>
              r[i] == if links[i].iconName in ICON_NAMES then links[i].iconName else "Twitter"
  {
    seq(|links|, i requires 0 <= i < |links| => IconFor(links[i].iconName))
  }

  class NavbarState {
    /** The user kept in the browser's storage. */
    var stored: Option<CurrentUser>
    var user: Option<CurrentUser>
    var pathname: string
    var isOpen: bool
    var showSocials: bool
    var socialLinks: seq<SocialMedia>

    /** The bar starts from the stored user. */
    constructor (stored: Option<CurrentUser>, pathname: string)
      ensures this.stored == stored && user == stored && this.pathname == pathname
      ensures !isOpen && !showSocials && socialLinks == []
    {
      this.stored := stored;
      user := stored;
      this.pathname := pathname;
      isOpen := false;
      showSocials := false;
      socialLinks := [];
    }

    /** The active links answered; a failure keeps the list. */
    method SocialsAnswered(data: Option<seq<SocialMedia>>)
      modifies this
      ensures socialLinks == if data.Some? then data.value else old(socialLinks)
      ensures user == old(user) && stored == old(stored) && pathname == old(pathname)
      ensures isOpen == old(isOpen) && showSocials == old(showSocials)
    {
      if data.Some? {
        socialLinks := data.value;
      }
    }

    /** A storage event: the bar shows the stored user again. */
    method StorageChanged()
      modifies this
      ensures user == stored && stored == old(stored) && pathname == old(pathname)
      ensures isOpen == old(isOpen) && showSocials == old(showSocials) && socialLinks == old(socialLinks)
    {
      user := stored;
    }

    /** Logout forgets the user in storage and on the bar and goes home. */
    method Logout()
      modifies this
      ensures stored.None? && user.None? && pathname == "/"
      ensures VisibleLinks(user) == ["/", "/about", "/contact", "/login", "/register", "/admin/posts/new"]
      ensures isOpen == old(isOpen) && showSocials == old(showSocials) && socialLinks == old(socialLinks)
    {
      stored := None;
      user := None;
      pathname := "/";
    }

    /** The logout button of the mobile menu also closes the menu. */
    method MobileLogout()
      modifies this
      ensures stored.None? && user.None? && pathname == "/" && !isOpen
      ensures showSocials == old(showSocials) && socialLinks == old(socialLinks)
    {
      Logout();
      isOpen := false;
    }

    method ToggleMobileMenu()
      modifies this
      ensures isOpen == !old(isOpen)
      ensures user == old(user) && stored == old(stored) && pathname == old(pathname)
      ensures showSocials == old(showSocials) && socialLinks == old(socialLinks)
    {
      isOpen := !isOpen;
    }

    /** A link of the mobile menu navigates and closes the menu. */
    method MobileLinkClicked(path: string)
      modifies this
      ensures pathname == path && !isOpen
      ensures user == old(user) && stored == old(stored)
      ensures showSocials == old(showSocials) && socialLinks == old(socialLinks)
    {
      pathname := path;
      isOpen := false;
    }

    /** The mouse enters the social media button or leaves its panel. */
    method HoverSocials(inside: bool)
      modifies this
      ensures showSocials == inside
      ensures user == old(user) && stored == old(stored) && pathname == old(pathname)
      ensures isOpen == old(isOpen) && socialLinks == old(socialLinks)
    {
      showSocials := inside;
    }

    /** The "Yönet" link under the social panel opens the social media
        admin page and hides the panel. */
    method ManageSocials()
      modifies this
      ensures pathname == SOCIAL_ADMIN_PATH && !showSocials
      ensures user == old(user) && stored == old(stored)
      ensures isOpen == old(isOpen) && socialLinks == old(socialLinks)
    {
      pathname := SOCIAL_ADMIN_PATH;
      showSocials := false;
    }
  }
}
