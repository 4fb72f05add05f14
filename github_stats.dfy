/**
 * The GitHub statistics panel: it fetches the user record and then the
 * repository list, keeps `stats`, `repos`, `loading` and `error`, and shows
 * a loading view, an error view or the data.
 *
 * Each fetch is an outcome handed in; the URLs requested are returned in
 * the order they are requested.
 */
module GitHubStats {
  import opened JsText

  datatype Stats = Stats(publicRepos: Option<int>, followers: Option<int>, following: Option<int>, createdAt: string)

  /** A repository as listed; "" stands for an absent description or
      language. */
  datatype Repo = Repo(name: string, description: string, language: string)

  /** What one fetch did: answered OK with a body, answered not OK, or
      threw (a network error or a body that is not JSON). */
  datatype Fetch<T> = Fetched(data: T) | NotOk | Threw(thrown: JsError)

  const UserUrl := "https://api.github.com/users/omkardongre"
  const ReposUrl := "https://api.github.com/users/omkardongre/repos?sort=updated&per_page=6"
  const UserFailed := "Failed to fetch user data"
  const ReposFailed := "Failed to fetch repositories"
  const SomeError := "An error occurred"

  /** The message the catch block stores. */
  function Caught(e: JsError): (m: string)
    ensures e.NotAnError? ==> m == SomeError
    ensures !e.NotAnError? ==> m == e.message
  {
    if e.NotAnError? then SomeError else e.message
  }

  datatype View = LoadingView | ErrorView | DataView

  /** Render precedence: loading first, then a (truthy) error, then data. */
  function ViewOf(loading: bool, error: Option<string>): (v: View)
    ensures v == LoadingView <==> loading
    ensures v == ErrorView <==> !loading && error.Some? && error.value != ""
  {
    if loading then LoadingView
    else if error.Some? && error.value != "" then ErrorView
    else DataView
  }

  class Panel {
    var stats: Option<Stats>
    var repos: seq<Repo>
    var loading: bool
    var error: Option<string>

    constructor ()
      ensures stats.None? && repos == [] && loading && error.None?
    {
      stats := None;
      repos := [];
      loading := true;
      error := None;
    }

    /** The mount effect: user record first, repositories only after it
        succeeded; whatever happens, loading ends. */
    method FetchGitHubData(user: Fetch<Stats>, list: Fetch<seq<Repo>>) returns (requested: seq<string>)
      modifies this
      ensures !loading
      ensures requested == if user.Fetched? then [UserUrl, ReposUrl] else [UserUrl]
      ensures user.NotOk? ==> error == Some(UserFailed) && stats == old(stats) && repos == old(repos)
      ensures user.Threw? ==> error == Some(Caught(user.thrown)) && stats == old(stats) && repos == old(repos)
      ensures user.Fetched? ==> stats == Some(user.data)
      ensures user.Fetched? && list.Fetched? ==> repos == list.data && error == old(error)
      ensures user.Fetched? && list.NotOk? ==> error == Some(ReposFailed) && repos == old(repos)
      ensures user.Fetched? && list.Threw? ==> error == Some(Caught(list.thrown)) && repos == old(repos)
    {
      requested := [UserUrl];
      if user.NotOk? {
        error := Some(UserFailed);
        loading := false;
        return;
      }
      if user.Threw? {
        error := Some(Caught(user.thrown));
        loading := false;
        return;
      }
      stats := Some(user.data);
      requested := requested + [ReposUrl];
      if list.NotOk? {
        error := Some(ReposFailed);
      } else if list.Threw? {
        error := Some(Caught(list.thrown));
      } else {
        repos := list.data;
      }
      loading := false;
    }
  }

  /** A failing repository fetch shows the error view even though the user
      record was already stored. */
  lemma ReposFailureHidesStats()
    ensures ViewOf(false, Some(ReposFailed)) == ErrorView
  {
  }

  /** An error whose message is empty is falsy: the data view is shown. */
  lemma EmptyErrorShowsData()
    ensures ViewOf(false, Some("")) == DataView
  {
  }

  /** The three counts on the stat cards. */
  datatype Count = PublicRepos | Followers | Following

  function CountOf(s: Stats, c: Count): Option<int> {
    match c
    case PublicRepos => s.publicRepos
    case Followers => s.followers
    case Following => s.following
  }

  /** A count as shown: a missing record or value shows 0. */
  function ShownCount(stats: Option<Stats>, c: Count): (n: int)
    ensures stats.None? ==> n == 0
    ensures stats.Some? && CountOf(stats.value, c).None? ==> n == 0
    ensures stats.Some? && CountOf(stats.value, c).Some? ==> n == CountOf(stats.value, c).value
  {
    if stats.Some? && CountOf(stats.value, c).Some? then CountOf(stats.value, c).value else 0
  }

  /** The "member since" card: the account's creation date, "N/A" before
      the user record is stored (the date formatting itself is not
      modelled). */
  function ShownSince(stats: Option<Stats>): (d: string)
    ensures stats.Some? ==> d == stats.value.createdAt
    ensures stats.None? ==> d == "N/A"
  {
    if stats.Some? then stats.value.createdAt else "N/A"
  }

  /** The repositories rendered: at most six, in the order listed. */
  function Rendered(repos: seq<Repo>): (r: seq<Repo>)
    ensures |r| <= 6 && |r| <= |repos| && r == repos[..|r|]
    ensures |repos| <= 6 ==> r == repos
  {
    if |repos| <= 6 then repos else repos[..6]
  }

  const NoDescription := "No description available"

  /** The description line of a repository card. */
  function ShownDescription(r: Repo): (d: string)
    ensures d != ""
    ensures r.description != "" ==> d == r.description
    ensures r.description == "" ==> d == NoDescription
  {
    if r.description != "" then r.description else NoDescription
  }

  /** The language badge, present only for a non-empty language. */
  function LanguageBadge(r: Repo): (b: Option<string>)
    ensures b.Some? <==> r.language != ""
    ensures b.Some? ==> b.value == r.language
  {
    if r.language != "" then Some(r.language) else None
  }

  const LanguageColors: map<string, string> := map[
    "JavaScript" := "bg-yellow-500", "TypeScript" := "bg-blue-500", "Python" := "bg-green-500",
    "C++" := "bg-blue-600", "C" := "bg-gray-600", "HTML" := "bg-orange-500", "CSS" := "bg-blue-400",
    "Java" := "bg-red-500", "Go" := "bg-cyan-500", "Rust" := "bg-orange-600"]

  const DefaultColor := "bg-gray-400"

  /** `getLanguageColor`: the listed colour, or grey for any other name. */
  function LanguageColor(language: string): (c: string)
    ensures language in LanguageColors ==> c == LanguageColors[language]
    ensures language !in LanguageColors ==> c == DefaultColor
  {
    if language in LanguageColors && LanguageColors[language] != "" then LanguageColors[language]
    else DefaultColor
  }

  /** A listed language gets its own colour; one that is not listed, such
      as Kotlin, is grey. */
  lemma LanguageTable()
    ensures LanguageColor("TypeScript") == "bg-blue-500"
    ensures LanguageColor("Kotlin") == DefaultColor
  {
  }
}
