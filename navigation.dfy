/**
 * The top navigation bar (src/components/Navigation.jsx): the page title
 * shown for the current path, and the path line beneath it.
 */
module Navigation {

  /** The title of any page the switch does not list. */
  const DefaultTitle: string := "Health AI"

  /** The paths the switch lists, with their titles, in the switch's order. */
  const KnownPaths: seq<string> := ["/", "/chat", "/suggestions", "/prevention", "/symptoms", "/vaccination"]
  const KnownTitles: seq<string> :=
    ["Welcome", "Health Assistant", "Quick Suggestions", "Prevention Hub", "Symptom Checker", "Vaccination Center"]

  /** getPageTitle: a switch on the exact path, defaulting to 'Health AI'. */
  function GetPageTitle(path: string): (r: string)
    ensures r == DefaultTitle || r in KnownTitles
  {
    match path
    case "/" => "Welcome"
    case "/chat" => "Health Assistant"
    case "/suggestions" => "Quick Suggestions"
    case "/prevention" => "Prevention Hub"
    case "/symptoms" => "Symptom Checker"
    case "/vaccination" => "Vaccination Center"
    case _ => DefaultTitle
  }

  /** Each listed path gets its own title. */
  lemma KnownPathTitles(i: int)
    requires 0 <= i < |KnownPaths|
    ensures GetPageTitle(KnownPaths[i]) == KnownTitles[i]
  {
  }

  /** The six titles differ from one another and from the default, so the title tells the page. */
  lemma TitlesDistinct(i: int, j: int)
    requires 0 <= i < |KnownTitles| && 0 <= j < |KnownTitles| && i != j
    ensures KnownTitles[i] != KnownTitles[j]
    ensures KnownTitles[i] != DefaultTitle
  {
  }

  /** A path gets a title other than the default exactly when the switch lists it; there is no trailing-slash normalisation. */
  lemma NonDefaultIffKnown(path: string)
    ensures GetPageTitle(path) != DefaultTitle <==> path in KnownPaths
  {
    if path in KnownPaths {
      var i :| 0 <= i < |KnownPaths| && KnownPaths[i] == path;
      TitlesDistinct(i, if i == 0 then 1 else 0);
    }
  }

  /** The path line under the title: `currentPath === '/' ? '/' : currentPath`, which is the path in both branches. */
  function PathDisplay(currentPath: string): (r: string)
    ensures r == currentPath
  {
    if currentPath == "/" then "/" else currentPath
  }
}
