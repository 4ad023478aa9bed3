/** The landing page's search box, technology pills and navigation bar. Navigation
    (`router.push`) is recorded in `navigations`; the authentication state is the
    shared `AuthProvider`. */
module SearchInterface {
  import opened Wrappers
  import Text
  import UriEncoding
  import AuthContext

  /** The pills offered, in display order. */
  const Technologies: seq<string> := ["React", "Python", "Node.js", "TypeScript"]

  const SearchPrefix := "/search?q="
  const LanguageParam := "&language="

  /** `handleSearch`'s destination: none for a blank query; otherwise the search page
      with the query (untrimmed, percent-encoded) and the selected pill as it is. */
  function SearchTarget(query: string, selectedTech: string): (r: Option<string>)
    ensures r.None? <==> Text.IsBlank(query)
    ensures r.Some? ==> r.value == SearchPrefix + UriEncoding.EncodeURIComponent(query) + LanguageParam + selectedTech
  {
    Text.TrimEmptyIffBlank(query);
    if Text.Trim(query) == "" then None
    else Some(SearchPrefix + UriEncoding.EncodeURIComponent(query) + LanguageParam + selectedTech)
  }

  /** The query reaches the search page intact: the text between `?q=` and the first
      `&` decodes to it, and the language parameter is the selected pill itself, so
      `TypeScript` is sent as `TypeScript` and not mapped to JavaScript. */
  lemma {:induction false} SearchTargetCarriesQuery(query: string, selectedTech: string)
    requires !Text.IsBlank(query)
    ensures var t := SearchTarget(query, selectedTech).value;
      var e := UriEncoding.EncodeURIComponent(query);
      t == SearchPrefix + e + LanguageParam + selectedTech &&
      UriEncoding.DecodeURIComponent(e) == Some(query) && '&' !in e
  {
    UriEncoding.DecodeEncodeURIComponent(query);
    UriEncoding.EncodedHasNoDelimiters(query);
  }

  /** The Bookmarks and Logout links show exactly for a signed-in user who is not a guest. */
  predicate NavVisible(auth: AuthContext.AuthProvider)
    reads auth
  {
    auth.user.Some? && !auth.isGuest
  }

  /** The component's own state: the selected pill and the navigations it made. */
  class Component {
    const auth: AuthContext.AuthProvider
    var selectedTech: string
    var navigations: seq<string>

    predicate Valid()
      reads this
    {
      selectedTech in Technologies
    }

    constructor(auth: AuthContext.AuthProvider)
      ensures Valid() && this.auth == auth && selectedTech == "React" && navigations == []
    {
      this.auth := auth;
      selectedTech := "React";
      navigations := [];
    }

    /** Clicking a pill selects it. */
    method SelectTech(tech: string)
      requires tech in Technologies
      modifies this
      ensures Valid() && selectedTech == tech && navigations == old(navigations)
    {
      selectedTech := tech;
    }

    /** `handleSearch`: navigates to `SearchTarget` when there is one, else does nothing. */
    method HandleSearch(query: string)
      modifies this
      ensures selectedTech == old(selectedTech)
      ensures Text.IsBlank(query) ==> navigations == old(navigations)
      ensures !Text.IsBlank(query) ==>
        navigations == old(navigations) + [SearchPrefix + UriEncoding.EncodeURIComponent(query) + LanguageParam + selectedTech]
    {
      var target := SearchTarget(query, selectedTech);
      if target.Some? {
        navigations := navigations + [target.value];
      }
    }

    /** `handleLogout`: log out, then enter guest mode, then go home. Whatever the
        logout's outcome, the user ends up a guest without a user, so the Bookmarks
        and Logout links disappear. */
    method HandleLogout(outcome: AuthContext.LogoutOutcome)
      requires auth.Valid()
      modifies this, auth
      ensures auth.Valid()
      ensures auth.isGuest && auth.user.None? && !NavVisible(auth)
      ensures auth.requests == old(auth.requests) + [AuthContext.LogoutRequest]
      ensures outcome.LoggedOut? ==> auth.location == Some("/")
      ensures navigations == old(navigations) + ["/"] && selectedTech == old(selectedTech)
    {
      auth.Logout(outcome);
      auth.EnableGuestMode();
      navigations := navigations + ["/"];
    }
  }
}
