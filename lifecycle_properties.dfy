/**
 What one click on "search" (`runSearch`) does, from the guard at its top to
 its `finally` block, and what `fetchRepositories` derives from the listing.
 */
module LifecycleProperties {
  import opened SearchState
  import opened ClassifierProperties
  import opened WalkerProperties

  // ---------------------------------------------------------------------------
  // Fetcher

  /** The locator is the `commits_url` with its last six characters dropped:
      for a URL ending in the `{/sha}` template, exactly the URL before it. */
  lemma LocatorDropsShaTemplate(url: string)
    ensures Locator(url + "{/sha}") == url
    ensures Locator(url) <= url
    ensures |Locator(url)| == if |url| >= 6 then |url| - 6 else 0
  {
    var t := url + "{/sha}";
    assert t[..|t| - 6] == url;
  }

  /** A successful listing records how many repositories there are and
      returns one locator per repository, in order. */
  lemma ListingRecordsRepositories(s: ScriptState, listing: Listing)
    requires s.abortController.Some? && listing.result.Listed?
    ensures var (r, fetched) := RepositoriesFetched(s, listing);
      && fetched.Ok?
      && r.repoListLength == |listing.result.repos| == |fetched.value|
      && (forall i :: 0 <= i < |fetched.value| ==> fetched.value[i] == Locator(listing.result.repos[i].commitsUrl))
      && r.usernameMapping == s.usernameMapping && r.repoCounter == s.repoCounter
  {
  }

  // ---------------------------------------------------------------------------
  // Guards

  /** With no username, a click only shows the toast: nothing is reset and
      no run starts. */
  lemma EmptyUsernameOnlyShowsToast(s: ScriptState, listing: Listing)
    requires s.username == ""
    ensures SearchRun(s, listing) == s.(isToastVisible := true)
  {
  }

  /** A click while a run is in progress changes nothing. */
  lemma ClickWhileProcessingIgnored(s: ScriptState, listing: Listing)
    requires s.username != "" && s.processing
    ensures SearchRun(s, listing) == s
  {
  }

  // ---------------------------------------------------------------------------
  // The end of a run

  /** However a started run ends (normally, by an error or by a
      cancellation): it is no longer processing, the controller is gone, the
      repository counter has not passed the number of repositories, and the
      run is marked done exactly when the two are equal. */
  lemma RunEnds(s: ScriptState, listing: Listing)
    requires s.username != "" && !s.processing
    ensures var r := SearchRun(s, listing);
      && !r.processing
      && r.abortController.None?
      && r.repoCounter <= r.repoListLength
      && (r.isDone <==> r.repoListLength == r.repoCounter)
      && r.username == s.username
  {
    var s1 := Cleared(s).(processing := true, abortController := Some(Controller(false)));
    var (s2, fetched) := RepositoriesFetched(s1, listing);
    assert !s2.isDone && s2.repoCounter == 0 && s2.abortController.Some?;
    if fetched.Ok? {
      var repos := listing.result.repos;
      assert s2.repoListLength == |repos|;
      WalkBounds(s2, fetched.value, Visits(repos));
    }
  }

  /** A listing that fails, a cancellation included, leaves both counters at
      zero, so the run is marked done with empty mappings; the toast shows
      unless the error is a cancellation. */
  lemma FailedListingCountsAsDone(s: ScriptState, listing: Listing)
    requires s.username != "" && !s.processing && listing.result.ListFailed?
    ensures var r := SearchRun(s, listing);
      && r.isDone
      && r.repoListLength == 0 && r.repoCounter == 0 && r.commitCounter == 0
      && r.usernameMapping == map[] && r.emailMapping == map[] && r.unknownMapping == map[]
      && r.isToastVisible == (s.isToastVisible || !IsAbort(listing.result.error))
  {
  }

  /** A run in which nothing is cancelled and every fetch answers ok counts
      every repository, ends done and shows no toast. */
  lemma SmoothRunCompletes(s: ScriptState, listing: Listing)
    requires s.username != "" && !s.processing
    requires !listing.cancelDuringListing && listing.result.Listed?
    requires forall i :: 0 <= i < |listing.result.repos| ==> Smooth(listing.result.repos[i].visit)
    ensures var r := SearchRun(s, listing);
      && r.isDone
      && r.repoCounter == r.repoListLength == |listing.result.repos|
      && r.isToastVisible == s.isToastVisible
      && !r.processing
  {
    var s1 := Cleared(s).(processing := true, abortController := Some(Controller(false)));
    var (s2, fetched) := RepositoriesFetched(s1, listing);
    var repos := listing.result.repos;
    var visits := Visits(repos);
    assert forall i :: 0 <= i < |visits| ==> Smooth(visits[i]) by {
      forall i | 0 <= i < |visits| ensures Smooth(visits[i]) {
        assert visits[i] == repos[i].visit;
      }
    }
    SmoothWalkCountsEveryRepository(s2, fetched.value, visits);
    WalkBounds(s2, fetched.value, visits);
  }

  /** When the listing succeeds and every visit is quiet, the run ends without
      a toast: a cancellation during a pause (or during a listing that still
      returns its repositories) is silent. */
  lemma CancellationIsSilent(s: ScriptState, listing: Listing)
    requires s.username != "" && !s.processing
    requires listing.result.Listed?
    requires forall i :: 0 <= i < |listing.result.repos| ==> Quiet(listing.result.repos[i].visit)
    ensures SearchRun(s, listing).isToastVisible == s.isToastVisible
  {
    var s1 := Cleared(s).(processing := true, abortController := Some(Controller(false)));
    var (s2, fetched) := RepositoriesFetched(s1, listing);
    var repos := listing.result.repos;
    var visits := Visits(repos);
    assert forall i :: 0 <= i < |visits| ==> Quiet(visits[i]) by {
      forall i | 0 <= i < |visits| ensures Quiet(visits[i]) {
        assert visits[i] == repos[i].visit;
      }
    }
    QuietWalkShowsNoToast(s2, fetched.value, visits);
    WalkBounds(s2, fetched.value, visits);
  }

  /** A cancel while a commit fetch is pending makes the pending request
      reject with an error of the browser's own, whose message is not
      "AbortError". The script reports that rejection with the toast, and
      the run stops unfinished with nothing counted. */
  lemma CancelDuringFetchShowsToast(s: ScriptState, listing: Listing)
    requires s.username != "" && !s.processing
    requires !listing.cancelDuringListing && listing.result.Listed? && listing.result.repos != []
    requires var v := listing.result.repos[0].visit;
      v.cancelDuringFetch && v.result.Rejected? && !IsAbort(v.result.error)
    ensures var r := SearchRun(s, listing);
      && r.isToastVisible
      && !r.isDone
      && r.repoCounter == 0 && r.commitCounter == 0
      && !r.processing
  {
    var s1 := Cleared(s).(processing := true, abortController := Some(Controller(false)));
    var (s2, fetched) := RepositoriesFetched(s1, listing);
    var repos := listing.result.repos;
    var visits := Visits(repos);
    assert visits[0] == repos[0].visit;
    var s3 := Cancelled(s2).(isToastVisible := true);
    assert RepoVisited(s2, fetched.value[0], visits[0]) == (s3, Normal);
    assert fetched.Ok? && |fetched.value| == |visits|;
    assert !Aborted(s2) && fetched.value != [];
    var w := Walked(s2, fetched.value, visits);
    assert w == Walked(s3, fetched.value[1..], visits[1..]);
    if |repos| > 1 {
      CancelledWalkStops(s3, fetched.value[1..], visits[1..]);
      assert w == (s3, Throw(NewError(AbortMessage)));
    } else {
      assert fetched.value[1..] == [];
    }
    assert s3.repoCounter == 0 && s3.commitCounter == 0 && s3.repoListLength == |repos|;
  }

  /** A cancellation while the first of several repositories is being
      fetched leaves the run not done, with no commit classified. */
  lemma CancelDuringFirstFetchLeavesRunUnfinished(s: ScriptState, listing: Listing)
    requires s.username != "" && !s.processing
    requires !listing.cancelDuringListing && listing.result.Listed?
    requires |listing.result.repos| > 1 && listing.result.repos[0].visit.cancelDuringFetch
    ensures var r := SearchRun(s, listing);
      && !r.isDone
      && r.repoCounter <= 1
      && r.commitCounter == 0
      && r.usernameMapping == map[] && r.emailMapping == map[] && r.unknownMapping == map[]
  {
    var s1 := Cleared(s).(processing := true, abortController := Some(Controller(false)));
    var (s2, fetched) := RepositoriesFetched(s1, listing);
    var repos := listing.result.repos;
    var visits := Visits(repos);
    assert visits[0] == repos[0].visit;
    CancelDuringFetchStopsWalk(s2, fetched.value, visits);
    WalkBounds(s2, fetched.value, visits);
  }

  /** A cancel during the pause after the first repository's ok batch: that
      repository and its commits are counted, the run stops without a toast,
      and it is marked done exactly when that was the only repository. */
  lemma CancelDuringFirstPause(s: ScriptState, listing: Listing)
    requires s.username != "" && !s.processing
    requires !listing.cancelDuringListing && listing.result.Listed? && listing.result.repos != []
    requires var v := listing.result.repos[0].visit;
      !v.cancelDuringFetch && Answered(v) && v.cancelDuringPause
    ensures var r := SearchRun(s, listing);
      && r.repoCounter == 1
      && r.commitCounter == |listing.result.repos[0].visit.result.commits|
      && r.isToastVisible == s.isToastVisible
      && (r.isDone <==> |listing.result.repos| == 1)
      && !r.processing && r.abortController.None?
  {
    var s1 := Cleared(s).(processing := true, abortController := Some(Controller(false)));
    var (s2, fetched) := RepositoriesFetched(s1, listing);
    var repos := listing.result.repos;
    var visits := Visits(repos);
    assert visits[0] == repos[0].visit;
    CancelDuringPauseStopsWalk(s2, fetched.value, visits);
    WalkBounds(s2, fetched.value, visits);
  }

  /** A run no cancellation touches: it counts exactly the repositories
      whose fetch answered ok, shows the toast exactly when some fetch
      failed, and is marked done exactly when every fetch answered ok. */
  lemma UninterruptedRunIsDoneIffEveryFetchAnswers(s: ScriptState, listing: Listing)
    requires s.username != "" && !s.processing
    requires !listing.cancelDuringListing && listing.result.Listed?
    requires forall i :: 0 <= i < |listing.result.repos| ==> Uninterrupted(listing.result.repos[i].visit)
    ensures var r := SearchRun(s, listing);
      var answered := AnsweredCount(Visits(listing.result.repos));
      && r.repoCounter == answered
      && r.repoListLength == |listing.result.repos|
      && r.isToastVisible == (s.isToastVisible || answered < |listing.result.repos|)
      && (r.isDone <==> answered == |listing.result.repos|)
      && !r.processing
  {
    var s1 := Cleared(s).(processing := true, abortController := Some(Controller(false)));
    var (s2, fetched) := RepositoriesFetched(s1, listing);
    var repos := listing.result.repos;
    var visits := Visits(repos);
    forall i | 0 <= i < |visits| ensures Uninterrupted(visits[i]) {
      assert visits[i] == repos[i].visit;
    }
    UninterruptedWalkCountsAnswered(s2, fetched.value, visits);
    WalkBounds(s2, fetched.value, visits);
  }

  /** A worked run: user "alice" has repositories A and B; A holds one commit
      by alice, B one commit with no account handle. */
  lemma TwoRepositoryRun()
    ensures
      var a := Commit("Alice A", "a@x.com", Some("alice"));
      var b := Commit("Bob B", "b@x.com", None);
      var repoA := Repo("A{/sha}", Visit(false, Response(true, "OK", [a]), false));
      var repoB := Repo("B{/sha}", Visit(false, Response(true, "OK", [b]), false));
      var r := SearchRun(Initial().(username := "alice"), Listing(false, Listed([repoA, repoB])));
      && r.usernameMapping == map["Alice A" := "A"]
      && r.emailMapping == map["a@x.com" := "A"]
      && r.unknownMapping == map["Bob B" := "B", "b@x.com" := "B"]
      && r.repoCounter == 2 && r.commitCounter == 2
      && r.isDone && !r.processing && !r.isToastVisible
  {
    var a := Commit("Alice A", "a@x.com", Some("alice"));
    var b := Commit("Bob B", "b@x.com", None);
    var repoA := Repo("A{/sha}", Visit(false, Response(true, "OK", [a]), false));
    var repoB := Repo("B{/sha}", Visit(false, Response(true, "OK", [b]), false));
    var s := Initial().(username := "alice");
    LocatorDropsShaTemplate("A");
    LocatorDropsShaTemplate("B");
    assert "A" + "{/sha}" == "A{/sha}" && "B" + "{/sha}" == "B{/sha}";
    var locators := Locators([repoA, repoB]);
    assert locators[0] == "A" && locators[1] == "B";
    assert locators == ["A", "B"];
    var s1 := Cleared(s).(processing := true, abortController := Some(Controller(false)));
    var (s2, fetched) := RepositoriesFetched(s1, Listing(false, Listed([repoA, repoB])));
    assert fetched == Ok(["A", "B"]);
    var visits := Visits([repoA, repoB]);
    assert visits == [repoA.visit, repoB.visit];
    var t1 := Classified(s2, a, "A");
    assert CommitsProcessed(s2, [a], "A") == (t1, Normal);
    var u1 := t1.(repoCounter := 1);
    assert RepoVisited(s2, "A", repoA.visit) == (u1, Normal);
    var t2 := Classified(u1, b, "B");
    assert CommitsProcessed(u1, [b], "B") == (t2, Normal);
    var u2 := t2.(repoCounter := 2);
    assert RepoVisited(u1, "B", repoB.visit) == (u2, Normal);
    assert Walked(s2, ["A", "B"], visits) == (u2, Normal);
  }
}
