/**
 The script's module-level variables as the fields of one object, and its
 functions as methods that update them in place. Each method is proved to
 leave the object in the state the matching function of `SearchState`
 describes.
 */
module SearchComponent {
  import opened SearchState

  class Component {
    var processing: bool
    var isToastVisible: bool
    var isDone: bool
    var abortController: Option<Controller>

    var username: string
    var usernameMapping: map<string, string>
    var emailMapping: map<string, string>
    var unknownMapping: map<string, string>

    var repoListLength: nat
    var repoCounter: nat
    var commitCounter: nat

    /** The current values of all fields. */
    function State(): ScriptState
      reads this
    {
      ScriptState(username, usernameMapping, emailMapping, unknownMapping,
                  repoListLength, repoCounter, commitCounter,
                  processing, isToastVisible, isDone, abortController)
    }

    constructor ()
      ensures State() == Initial()
    {
      processing, isToastVisible, isDone, abortController := false, false, false, None;
      username := "";
      usernameMapping, emailMapping, unknownMapping := map[], map[], map[];
      repoListLength, repoCounter, commitCounter := 0, 0, 0;
    }

    /** The text field bound to `username`. */
    method EnterUsername(u: string)
      modifies this
      ensures State() == old(State()).(username := u)
    {
      username := u;
    }

    method RunSearch(listing: Listing)
      modifies this
      ensures State() == SearchRun(old(State()), listing)
    {
      if username == "" {
        isToastVisible := true;
        return;
      }
      if processing {
        return;
      }
      ClearVariables();
      processing := true;
      abortController := Some(Controller(false));

      var fetched := FetchRepositories(listing);
      var o: Outcome;
      if fetched.Fail? {
        o := Throw(fetched.error);
      } else {
        o := ProcessRepositories(fetched.value, Visits(listing.result.repos));
      }
      if o.Throw? {
        HandleSearchError(o.error);
      }
      processing := false;
      abortController := None;
      if repoListLength == repoCounter {
        isDone := true;
      }
    }

    method FetchRepositories(listing: Listing) returns (r: Result<seq<string>>)
      modifies this
      ensures (State(), r) == RepositoriesFetched(old(State()), listing)
    {
      if abortController.None? {
        return Fail(NewError(NoControllerMessage));
      }
      if listing.cancelDuringListing {
        HandleCancel();
      }
      match listing.result
      case ListFailed(e) =>
        return Fail(e);
      case Listed(repos) =>
        repoListLength := |repos|;
        return Ok(Locators(repos));
    }

    method ProcessRepositories(repositories: seq<string>, network: seq<Visit>) returns (o: Outcome)
      requires |network| == |repositories|
      modifies this
      ensures (State(), o) == RepositoriesProcessed(old(State()), repositories, network)
    {
      if abortController.None? {
        return Throw(NewError(NoControllerMessage));
      }
      var i := 0;
      while i < |repositories|
        invariant 0 <= i <= |repositories|
        invariant RepositoriesProcessed(old(State()), repositories, network)
                  == Walked(State(), repositories[i..], network[i..])
      {
        if Aborted(State()) {
          return Throw(NewError(AbortMessage));
        }
        var thrown := VisitRepository(repositories[i], network[i]);
        // the `catch` block
        if thrown.Some? {
          var rethrown := HandleRepoProcessingError(thrown.value);
          if rethrown.Throw? {
            return rethrown;
          }
        }
        assert repositories[i..][1..] == repositories[i + 1..];
        assert network[i..][1..] == network[i + 1..];
        i := i + 1;
      }
      return Normal;
    }

    /** The `try` block of one iteration of `processRepositories`: it
        returns the error the block throws, if any. */
    method VisitRepository(repo: string, visit: Visit) returns (thrown: Option<Error>)
      modifies this
      ensures (State(), thrown) == VisitTried(old(State()), repo, visit)
    {
      thrown := None;
      if visit.cancelDuringFetch {
        HandleCancel();
      }
      match visit.result {
        case Rejected(e) =>
          thrown := Some(e);
        case Response(ok, statusText, commits) =>
          if !ok {
            thrown := Some(NewError(FetchErrorPrefix + statusText));
          } else {
            var c := ProcessCommits(commits, repo);
            if c.Throw? {
              thrown := Some(c.error);
            } else {
              repoCounter := repoCounter + 1;
              if visit.cancelDuringPause {
                HandleCancel();
              }
              if Aborted(State()) {
                thrown := Some(NewError(AbortMessage));
              }
            }
          }
      }
    }

    method ProcessCommits(commits: seq<Commit>, repo: string) returns (o: Outcome)
      modifies this
      ensures (State(), o) == CommitsProcessed(old(State()), commits, repo)
    {
      var i := 0;
      while i < |commits|
        invariant 0 <= i <= |commits|
        invariant CommitsProcessed(old(State()), commits, repo)
                  == CommitsProcessed(State(), commits[i..], repo)
      {
        if abortController.Some? && abortController.value.aborted {
          return Throw(NewError(AbortMessage));
        }
        var commit := commits[i];
        if !HasLogin(commit) {
          unknownMapping := unknownMapping[commit.name := repo];
          unknownMapping := unknownMapping[commit.email := repo];
        } else if commit.login.value == username {
          if commit.name !in usernameMapping {
            usernameMapping := usernameMapping[commit.name := repo];
          }
          if commit.email !in emailMapping {
            emailMapping := emailMapping[commit.email := repo];
          }
        }
        commitCounter := commitCounter + 1;
        assert commits[i..][1..] == commits[i + 1..];
        i := i + 1;
      }
      return Normal;
    }

    method ClearVariables()
      modifies this
      ensures State() == Cleared(old(State()))
      ensures usernameMapping == map[] && emailMapping == map[] && unknownMapping == map[]
      ensures commitCounter == 0 && repoCounter == 0 && repoListLength == 0 && !isDone
      ensures username == old(username) && processing == old(processing)
      ensures isToastVisible == old(isToastVisible) && abortController == old(abortController)
    {
      usernameMapping := map[];
      emailMapping := map[];
      unknownMapping := map[];
      commitCounter := 0;
      repoCounter := 0;
      repoListLength := 0;
      isDone := false;
    }

    method HandleCancel()
      modifies this
      ensures State() == Cancelled(old(State()))
      ensures old(abortController).Some? ==> Aborted(State()) && !processing
      ensures old(abortController).None? ==> State() == old(State())
    {
      if abortController.Some? {
        abortController := Some(Controller(true));
        processing := false;
      }
    }

    method HandleSearchError(e: Error)
      modifies this
      ensures State() == SearchErrorHandled(old(State()), e)
      ensures isToastVisible == (old(isToastVisible) || !IsAbort(e))
    {
      if !IsAbort(e) {
        isToastVisible := true;
      }
    }

    method HandleRepoProcessingError(e: Error) returns (o: Outcome)
      modifies this
      ensures (State(), o) == RepoErrorHandled(old(State()), e)
      ensures o.Throw? <==> IsAbort(e)
      ensures isToastVisible == (old(isToastVisible) || !IsAbort(e))
    {
      if IsAbort(e) {
        return Throw(NewError(AbortMessage));
      }
      isToastVisible := true;
      return Normal;
    }
  }
}
