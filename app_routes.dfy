/**
 * The route table of the application shell (src/App.jsx), and how the
 * sidebar and the navigation bar agree with it.
 */
module AppRoutes {
  import Sidebar
  import Navigation
  import opened JsString

  /** The `path` patterns of the `<Route>` elements, in declaration order. */
  const RoutePatterns: seq<string> := ["/", "/chat", "/suggestions", "/prevention", "/symptoms", "/vaccination"]

  /**
   * The router renders a page for `path` when some pattern matches it the way
   * React Router v6 compares static paths: without regard to ASCII case, and
   * with any number of trailing slashes after the pattern.
   */
  ghost predicate Routed(path: string) {
    exists i :: 0 <= i <= |path| && Lower(path[..i]) in RoutePatterns
                && forall k :: i <= k < |path| ==> path[k] == '/'
  }

  /** A pattern matched by the first `i` characters, followed only by slashes, routes the path. */
  lemma RoutedAt(path: string, i: int)
    requires 0 <= i <= |path| && Lower(path[..i]) in RoutePatterns
    requires forall k :: i <= k < |path| ==> path[k] == '/'
    ensures Routed(path)
  {
  }

  /** Every pattern, written exactly, is routed. */
  lemma PatternsAreRouted(i: int)
    requires 0 <= i < |RoutePatterns|
    ensures Routed(RoutePatterns[i])
  {
    var path := RoutePatterns[i];
    LowerFixesLowerCase(path);
    assert path[..|path|] == path;
    RoutedAt(path, |path|);
  }

  /** A trailing slash still routes to the chat page. */
  lemma SlashVariantRouted()
    ensures Routed("/chat/")
  {
    var slashed := "/chat/";
    assert slashed[..5] == RoutePatterns[1];
    LowerFixesLowerCase(RoutePatterns[1]);
    RoutedAt(slashed, 5);
  }

  /** Capitals still route to the chat page. */
  lemma CaseVariantRouted()
    ensures Routed("/CHAT")
  {
    var upper := "/CHAT";
    assert upper[..5] == upper;
    assert Lower(upper) == RoutePatterns[1];
    RoutedAt(upper, 5);
  }

  /** A path spelt as no pattern gets the default title, and the sidebar marks 'home'. */
  lemma ExactOnly(path: string)
    requires path !in RoutePatterns
    ensures Navigation.GetPageTitle(path) == Navigation.DefaultTitle
    ensures Sidebar.GetActiveSection(path) == Sidebar.HomeId
  {
    Navigation.NonDefaultIffKnown(path);
    forall i | 0 <= i < |Sidebar.MenuItems|
      ensures Sidebar.MenuItems[i].path != path
    {
      MenuPathsAreRouted(i);
    }
    Sidebar.UnknownPathIsHome(path);
  }

  /**
   * The router and the navigation bar disagree on variants of a pattern:
   * '/chat/' and '/CHAT' render the chat page, yet the title bar falls back to
   * its default and the sidebar marks 'home' active, since both compare
   * `location.pathname` exactly.
   */
  lemma VariantsRoutedButUntitled()
    ensures Routed("/chat/") && Routed("/CHAT")
    ensures Navigation.GetPageTitle("/chat/") == Navigation.DefaultTitle
    ensures Navigation.GetPageTitle("/CHAT") == Navigation.DefaultTitle
    ensures Sidebar.GetActiveSection("/chat/") == Sidebar.HomeId
    ensures Sidebar.GetActiveSection("/CHAT") == Sidebar.HomeId
  {
    SlashVariantRouted();
    CaseVariantRouted();
    var slashed, upper := "/chat/", "/CHAT";
    assert slashed !in RoutePatterns by {
      assert slashed[5] == '/' && |slashed| == 6;
    }
    assert upper !in RoutePatterns by {
      assert upper[1] == 'C' && |upper| == 5;
    }
    ExactOnly(slashed);
    ExactOnly(upper);
  }

  /** A path spelt exactly as one of the patterns gets a title of its own, never the default. */
  lemma RoutedPagesHaveTitles(path: string)
    requires path in RoutePatterns
    ensures Navigation.GetPageTitle(path) != Navigation.DefaultTitle
  {
    Navigation.NonDefaultIffKnown(path);
  }

  /** Every sidebar entry leads to a routed page. */
  lemma MenuPathsAreRouted(i: int)
    requires 0 <= i < |Sidebar.MenuItems|
    ensures Sidebar.MenuItems[i].path in RoutePatterns
  {
    assert RoutePatterns[0] == "/" && RoutePatterns[1] == "/chat" && RoutePatterns[3] == "/prevention";
    assert RoutePatterns[4] == "/symptoms" && RoutePatterns[5] == "/vaccination";
  }

  /** Every sidebar entry but the first is captioned with its page's title; the first reads 'Home' over a page titled 'Welcome'. */
  lemma MenuCaptionsMatchTitles(i: int)
    requires 0 <= i < |Sidebar.MenuItems|
    ensures i == 0 <==> Sidebar.MenuItems[i].caption != Navigation.GetPageTitle(Sidebar.MenuItems[i].path)
  {
  }

  /** '/suggestions' is routed but has no sidebar entry, so on that page the sidebar marks 'home' active. */
  lemma SuggestionsHighlightsHome()
    ensures "/suggestions" in RoutePatterns
    ensures Sidebar.GetActiveSection("/suggestions") == Sidebar.HomeId
  {
    assert RoutePatterns[2] == "/suggestions";
  }
}
