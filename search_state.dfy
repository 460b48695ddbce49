/**
 The state of the commit-attribution script and the meaning of each of its
 steps, written as functions over that state.

 The script keeps its state in module-level variables; `ScriptState` is a
 snapshot of all of them. Every operation of the script is given here as a
 function from the state before to the state after (and, for the operations
 that can throw, the outcome). The class in module `SearchComponent` updates
 the variables in place and is proved to agree with these functions; the
 properties of the script are proved about the functions.

 The network is an input: a `Listing` says what the repository listing
 returns, and each `Repo` in it carries the `Visit` that says what fetching
 its commits returns. A user's click on "cancel" can only take effect while
 the script is suspended at an `await`; the flags in `Listing` and `Visit`
 say at which of those points it happened.
 */
module SearchState {

  datatype Option<T> = None | Some(value: T)

  datatype Result<T> = Ok(value: T) | Fail(error: Error)

  /** A thrown JavaScript error: its `name` and its `message`. */
  datatype Error = Error(name: string, message: string)

  /** `new Error(message)`: its name is "Error". */
  function NewError(message: string): Error
  {
    Error("Error", message)
  }

  /** How a step that may throw ended. */
  datatype Outcome = Normal | Throw(error: Error)

  const AbortMessage: string := "AbortError"
  const NoControllerMessage: string := "AbortController not initialized"
  const FetchErrorPrefix: string := "Error fetching repo: "

  /** The script recognises a cancellation by the error's message alone. */
  predicate IsAbort(e: Error)
  {
    e.message == AbortMessage
  }

  /** An `AbortController`: all the script reads of it is whether it was aborted. */
  datatype Controller = Controller(aborted: bool)

  /** One commit record: the author's name and email and the optional account handle. */
  datatype Commit = Commit(name: string, email: string, login: Option<string>)

  /** What one fetch of a repository's commits yields: a response, whose
      body is already parsed into commits, or a rejection of the fetch or
      of the body parsing. */
  datatype FetchResult =
    | Response(ok: bool, statusText: string, commits: seq<Commit>)
    | Rejected(error: Error)

  /** The environment of one repository visit: whether the user cancels
      while the fetch is pending, what the fetch yields, and whether the
      user cancels during the pause that follows a classified batch. */
  datatype Visit = Visit(cancelDuringFetch: bool, result: FetchResult, cancelDuringPause: bool)

  /** One repository returned by the listing: its `commits_url` and what visiting it will yield. */
  datatype Repo = Repo(commitsUrl: string, visit: Visit)

  datatype ListResult = Listed(repos: seq<Repo>) | ListFailed(error: Error)

  /** The environment of the repository listing: whether the user cancels while it is pending, and its result. */
  datatype Listing = Listing(cancelDuringListing: bool, result: ListResult)

  /** All module-level variables of the script. */
  datatype ScriptState = ScriptState(
    username: string,
    usernameMapping: map<string, string>,
    emailMapping: map<string, string>,
    unknownMapping: map<string, string>,
    repoListLength: nat,
    repoCounter: nat,
    commitCounter: nat,
    processing: bool,
    isToastVisible: bool,
    isDone: bool,
    abortController: Option<Controller>)

  /** The values the variables are declared with. */
  function Initial(): ScriptState
  {
    ScriptState("", map[], map[], map[], 0, 0, 0, false, false, false, None)
  }

  /** `abortController.signal.aborted`, with a missing controller read as not aborted. */
  predicate Aborted(s: ScriptState)
  {
    s.abortController.Some? && s.abortController.value.aborted
  }

  // ---------------------------------------------------------------------------
  // Run lifecycle helpers

  /** `clearVariables`: empty mappings, zero counters, not done. */
  function Cleared(s: ScriptState): ScriptState
  {
    s.(usernameMapping := map[], emailMapping := map[], unknownMapping := map[],
       commitCounter := 0, repoCounter := 0, repoListLength := 0, isDone := false)
  }

  /** `handleCancel`: abort the controller, if there is one, and stop processing. */
  function Cancelled(s: ScriptState): ScriptState
  {
    if s.abortController.Some? then
      s.(abortController := Some(Controller(true)), processing := false)
    else
      s
  }

  /** `handleSearchError`: every error except a cancellation shows the toast. */
  function SearchErrorHandled(s: ScriptState, e: Error): ScriptState
  {
    if IsAbort(e) then s else s.(isToastVisible := true)
  }

  /** `handleRepoProcessingError`: a cancellation is thrown on, any other error shows the toast. */
  function RepoErrorHandled(s: ScriptState, e: Error): (ScriptState, Outcome)
  {
    if IsAbort(e) then (s, Throw(NewError(AbortMessage)))
    else (s.(isToastVisible := true), Normal)
  }

  // ---------------------------------------------------------------------------
  // Classifier

  /** `commit.author?.login || null` is truthy: a handle is present and not empty. */
  predicate HasLogin(c: Commit)
  {
    c.login.Some? && c.login.value != ""
  }

  /** The commit's handle is the searched user's. */
  predicate IsUsers(c: Commit, username: string)
  {
    HasLogin(c) && c.login.value == username
  }

  /** Insert only when the key is absent: the first write wins. */
  function InsertAbsent(m: map<string, string>, k: string, v: string): map<string, string>
  {
    if k in m then m else m[k := v]
  }

  /** The username mapping after one commit: the user's commits record their name. */
  function UsernamesAfter(m: map<string, string>, c: Commit, username: string, repo: string): map<string, string>
  {
    if IsUsers(c, username) then InsertAbsent(m, c.name, repo) else m
  }

  /** The email mapping after one commit: the user's commits record their email. */
  function EmailsAfter(m: map<string, string>, c: Commit, username: string, repo: string): map<string, string>
  {
    if IsUsers(c, username) then InsertAbsent(m, c.email, repo) else m
  }

  /** The unknown mapping after one commit: a commit with no handle sets its
      name and its email, overwriting. */
  function UnknownsAfter(m: map<string, string>, c: Commit, repo: string): map<string, string>
  {
    if !HasLogin(c) then m[c.name := repo][c.email := repo] else m
  }

  /** The body of the loop in `processCommits` for one commit that is not cancelled. */
  function Classified(s: ScriptState, c: Commit, repo: string): ScriptState
  {
    s.(usernameMapping := UsernamesAfter(s.usernameMapping, c, s.username, repo),
       emailMapping := EmailsAfter(s.emailMapping, c, s.username, repo),
       unknownMapping := UnknownsAfter(s.unknownMapping, c, repo),
       commitCounter := s.commitCounter + 1)
  }

  /** `processCommits`: classify the commits in order, checking for a cancellation before each. */
  function CommitsProcessed(s: ScriptState, commits: seq<Commit>, repo: string): (ScriptState, Outcome)
    decreases |commits|
  {
    if commits == [] then (s, Normal)
    else if Aborted(s) then (s, Throw(NewError(AbortMessage)))
    else CommitsProcessed(Classified(s, commits[0], repo), commits[1..], repo)
  }

  // ---------------------------------------------------------------------------
  // Walker

  /** The state after an `await` during which the user may have clicked cancel. */
  function Resumed(s: ScriptState, cancelled: bool): ScriptState
  {
    if cancelled then Cancelled(s) else s
  }

  /** After a classified batch: count the repository, pause, and throw if
      the run was cancelled by then. */
  function Paused(s: ScriptState, cancelledDuringPause: bool): (ScriptState, Option<Error>)
  {
    var s' := Resumed(s.(repoCounter := s.repoCounter + 1), cancelledDuringPause);
    (s', if Aborted(s') then Some(NewError(AbortMessage)) else None)
  }

  /** The `try` block of one iteration of `processRepositories`; the second
      component is the error it throws, if any. */
  function VisitTried(s: ScriptState, repo: string, v: Visit): (ScriptState, Option<Error>)
  {
    var s1 := Resumed(s, v.cancelDuringFetch);
    match v.result
    case Rejected(e) => (s1, Some(e))
    case Response(ok, statusText, commits) =>
      if !ok then (s1, Some(NewError(FetchErrorPrefix + statusText)))
      else
        var p := CommitsProcessed(s1, commits, repo);
        if p.1.Throw? then (p.0, Some(p.1.error)) else Paused(p.0, v.cancelDuringPause)
  }

  /** One iteration of `processRepositories`, its `catch` included. */
  function RepoVisited(s: ScriptState, repo: string, v: Visit): (ScriptState, Outcome)
  {
    var (s1, thrown) := VisitTried(s, repo, v);
    if thrown.None? then (s1, Normal) else RepoErrorHandled(s1, thrown.value)
  }

  /** The loop of `processRepositories`: before each repository, a cancellation ends the walk. */
  function Walked(s: ScriptState, repos: seq<string>, visits: seq<Visit>): (ScriptState, Outcome)
    requires |repos| == |visits|
    decreases |repos|
  {
    if repos == [] then (s, Normal)
    else if Aborted(s) then (s, Throw(NewError(AbortMessage)))
    else
      var (s1, o) := RepoVisited(s, repos[0], visits[0]);
      if o.Throw? then (s1, o) else Walked(s1, repos[1..], visits[1..])
  }

  /** `processRepositories`. */
  function RepositoriesProcessed(s: ScriptState, repos: seq<string>, visits: seq<Visit>): (ScriptState, Outcome)
    requires |repos| == |visits|
  {
    if s.abortController.None? then (s, Throw(NewError(NoControllerMessage)))
    else Walked(s, repos, visits)
  }

  // ---------------------------------------------------------------------------
  // Fetcher

  /** `commits_url.slice(0, -6)`: drop the last six characters (all of a shorter string). */
  function Locator(commitsUrl: string): string
  {
    if |commitsUrl| >= 6 then commitsUrl[..|commitsUrl| - 6] else ""
  }

  function Locators(repos: seq<Repo>): seq<string>
  {
    seq(|repos|, i requires 0 <= i < |repos| => Locator(repos[i].commitsUrl))
  }

  function Visits(repos: seq<Repo>): seq<Visit>
  {
    seq(|repos|, i requires 0 <= i < |repos| => repos[i].visit)
  }

  /** `fetchRepositories`: list the user's repositories, record how many there
      are and return their locators. */
  function RepositoriesFetched(s: ScriptState, listing: Listing): (r: (ScriptState, Result<seq<string>>))
    ensures r.1.Ok? ==> listing.result.Listed? && |r.1.value| == |listing.result.repos|
  {
    if s.abortController.None? then (s, Fail(NewError(NoControllerMessage)))
    else
      var s1 := if listing.cancelDuringListing then Cancelled(s) else s;
      match listing.result
      case ListFailed(e) => (s1, Fail(e))
      case Listed(repos) => (s1.(repoListLength := |repos|), Ok(Locators(repos)))
  }

  // ---------------------------------------------------------------------------
  // Run

  /** `runSearch`, from the click to the end of its `finally` block. */
  function SearchRun(s: ScriptState, listing: Listing): ScriptState
  {
    if s.username == "" then s.(isToastVisible := true)
    else if s.processing then s
    else
      var s1 := Cleared(s).(processing := true, abortController := Some(Controller(false)));
      var (s2, fetched) := RepositoriesFetched(s1, listing);
      var (s3, o) :=
        if fetched.Fail? then (s2, Throw(fetched.error))
        else RepositoriesProcessed(s2, fetched.value, Visits(listing.result.repos));
      var s4 := if o.Throw? then SearchErrorHandled(s3, o.error) else s3;
      var s5 := s4.(processing := false, abortController := None);
      if s5.repoListLength == s5.repoCounter then s5.(isDone := true) else s5
  }
}
