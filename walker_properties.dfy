/**
 What the walk over the repository locators (`processRepositories`) does:
 which variables it may change, how far the repository counter can get,
 how a failed fetch and a cancellation are handled, and that attributions
 made by an earlier repository survive the later ones.
 */
module WalkerProperties {
  import opened SearchState
  import opened ClassifierProperties

  /** The variables no step of the walk changes. */
  predicate SameOutsideWalk(s: ScriptState, t: ScriptState)
  {
    && t.username == s.username
    && t.repoListLength == s.repoListLength
    && t.isDone == s.isDone
    && t.abortController.Some? == s.abortController.Some?
  }

  /** A visit in which nothing goes wrong: no cancellation, an ok response. */
  predicate Smooth(v: Visit)
  {
    !v.cancelDuringFetch && v.result.Response? && v.result.ok && !v.cancelDuringPause
  }

  /** The fetch of a visit answered with an ok response (cancellations may still happen). */
  predicate Answered(v: Visit)
  {
    v.result.Response? && v.result.ok
  }

  /** A visit the script reports nothing about: either the fetch answers ok
      with no cancel pending (a cancel may still come during the pause), or it
      is rejected with an error the script recognises as a cancellation. */
  predicate Quiet(v: Visit)
  {
    || (!v.cancelDuringFetch && Answered(v))
    || (v.result.Rejected? && IsAbort(v.result.error))
  }

  /** The facts about counters and flags `VisitStep` states, as a relation between two states. */
  predicate StepBounds(s: ScriptState, r: ScriptState)
  {
    && SameOutsideWalk(s, r)
    && s.repoCounter <= r.repoCounter <= s.repoCounter + 1
    && s.commitCounter <= r.commitCounter
    && (Aborted(s) ==> Aborted(r))
  }

  /** The username and email entries of `s` are in `r` with the same repository. */
  predicate KeepsAttributions(s: ScriptState, r: ScriptState)
  {
    && (forall k :: k in s.usernameMapping ==> k in r.usernameMapping && r.usernameMapping[k] == s.usernameMapping[k])
    && (forall k :: k in s.emailMapping ==> k in r.emailMapping && r.emailMapping[k] == s.emailMapping[k])
  }

  /** An `await` at which the user may cancel changes only the controller
      and the processing flag, and never clears an abort. */
  lemma ResumedChangesOnlyController(s: ScriptState, cancelled: bool)
    ensures var r := Resumed(s, cancelled);
      && r == s.(abortController := r.abortController, processing := r.processing)
      && r.abortController.Some? == s.abortController.Some?
      && (Aborted(s) ==> Aborted(r))
  {
  }

  /** The `try` block of one repository, for counters and flags. */
  lemma TryBounds(s: ScriptState, repo: string, v: Visit)
    ensures StepBounds(s, VisitTried(s, repo, v).0)
  {
    var s1 := Resumed(s, v.cancelDuringFetch);
    ResumedChangesOnlyController(s, v.cancelDuringFetch);
    assert StepBounds(s, s1);
    if v.result.Response? && v.result.ok {
      var p := CommitsProcessed(s1, v.result.commits, repo);
      BatchFrame(s1, v.result.commits, repo);
      if p.1.Normal? {
        var t := p.0.(repoCounter := p.0.repoCounter + 1);
        ResumedChangesOnlyController(t, v.cancelDuringPause);
        assert VisitTried(s, repo, v).0 == Resumed(t, v.cancelDuringPause);
      }
    }
  }

  /** The `try` block counts its repository exactly when the fetch answered
      ok and the whole batch was classified without a cancellation. */
  lemma TryCountsRepository(s: ScriptState, repo: string, v: Visit)
    ensures VisitTried(s, repo, v).0.repoCounter
         == s.repoCounter + if Answered(v) && CommitsProcessed(Resumed(s, v.cancelDuringFetch), v.result.commits, repo).1.Normal?
                            then 1 else 0
  {
    var s1 := Resumed(s, v.cancelDuringFetch);
    if Answered(v) {
      BatchFrame(s1, v.result.commits, repo);
    }
  }

  /** The `try` block of one repository, for the username and email mappings. */
  lemma TryKeepsAttributions(s: ScriptState, repo: string, v: Visit)
    ensures KeepsAttributions(s, VisitTried(s, repo, v).0)
  {
    var s1 := Resumed(s, v.cancelDuringFetch);
    ResumedChangesOnlyController(s, v.cancelDuringFetch);
    if v.result.Response? && v.result.ok {
      var p := CommitsProcessed(s1, v.result.commits, repo);
      BatchKeepsAttributions(s1, v.result.commits, repo);
      if p.1.Normal? {
        var t := p.0.(repoCounter := p.0.repoCounter + 1);
        ResumedChangesOnlyController(t, v.cancelDuringPause);
        assert VisitTried(s, repo, v).0 == Resumed(t, v.cancelDuringPause);
      }
    }
  }

  /** One repository: the walk-level variables stay as they were, the
      repository counter grows by at most one, an aborted controller stays
      aborted, an existing username or email entry keeps its repository, and
      only a cancellation escapes the `catch`. */
  lemma VisitStep(s: ScriptState, repo: string, v: Visit)
    ensures var (r, o) := RepoVisited(s, repo, v);
      && StepBounds(s, r)
      && KeepsAttributions(s, r)
      && (o.Throw? ==> o.error == NewError(AbortMessage))
  {
    TryBounds(s, repo, v);
    TryKeepsAttributions(s, repo, v);
  }

  /** The whole walk: the same facts, with the repository counter growing by
      at most the number of repositories. */
  lemma {:induction false} WalkBounds(s: ScriptState, repos: seq<string>, visits: seq<Visit>)
    requires |repos| == |visits|
    ensures var (r, o) := Walked(s, repos, visits);
      && SameOutsideWalk(s, r)
      && s.repoCounter <= r.repoCounter <= s.repoCounter + |repos|
      && s.commitCounter <= r.commitCounter
      && (Aborted(s) ==> Aborted(r))
      && (o.Throw? ==> o.error == NewError(AbortMessage))
    decreases |repos|
  {
    if repos != [] && !Aborted(s) {
      VisitStep(s, repos[0], visits[0]);
      var (s1, o) := RepoVisited(s, repos[0], visits[0]);
      if o.Normal? {
        WalkBounds(s1, repos[1..], visits[1..]);
      }
    }
  }

  /** First write wins across repositories: an entry of the username or email
      mapping keeps the repository it was first recorded with for the rest of
      the walk. */
  lemma {:induction false} WalkKeepsAttributions(s: ScriptState, repos: seq<string>, visits: seq<Visit>)
    requires |repos| == |visits|
    ensures var r := Walked(s, repos, visits).0;
      && (forall k :: k in s.usernameMapping ==> k in r.usernameMapping && r.usernameMapping[k] == s.usernameMapping[k])
      && (forall k :: k in s.emailMapping ==> k in r.emailMapping && r.emailMapping[k] == s.emailMapping[k])
    decreases |repos|
  {
    if repos != [] && !Aborted(s) {
      VisitStep(s, repos[0], visits[0]);
      var (s1, o) := RepoVisited(s, repos[0], visits[0]);
      if o.Normal? {
        WalkKeepsAttributions(s1, repos[1..], visits[1..]);
      }
    }
  }

  /** When no visit is cancelled and every response is ok, every repository is
      counted, no toast is shown and the walk ends normally. */
  lemma {:induction false} SmoothWalkCountsEveryRepository(s: ScriptState, repos: seq<string>, visits: seq<Visit>)
    requires |repos| == |visits|
    requires !Aborted(s)
    requires forall i :: 0 <= i < |visits| ==> Smooth(visits[i])
    ensures var (r, o) := Walked(s, repos, visits);
      && o == Normal
      && r.repoCounter == s.repoCounter + |repos|
      && r.isToastVisible == s.isToastVisible
      && !Aborted(r)
    decreases |repos|
  {
    if repos != [] {
      var v := visits[0];
      assert Smooth(v);
      BatchOutcome(s, v.result.commits, repos[0]);
      BatchFrame(s, v.result.commits, repos[0]);
      var s1 := RepoVisited(s, repos[0], v).0;
      assert forall i :: 0 <= i < |visits[1..]| ==> Smooth(visits[1..][i]) by {
        forall i | 0 <= i < |visits[1..]| ensures Smooth(visits[1..][i]) {
          assert visits[1..][i] == visits[i + 1];
        }
      }
      SmoothWalkCountsEveryRepository(s1, repos[1..], visits[1..]);
    }
  }

  /** The commits an ok response carries; none for any other result. */
  function Batch(v: Visit): seq<Commit>
  {
    if Answered(v) then v.result.commits else []
  }

  /** The number of commits the ok responses of the visits carry. */
  function BatchSizes(visits: seq<Visit>): nat
  {
    if visits == [] then 0 else |Batch(visits[0])| + BatchSizes(visits[1..])
  }

  /** A visit that no cancellation touches: no cancel during the fetch or the
      pause, and no rejection the script takes for one. Its fetch may still
      fail, and the walk then skips the repository. */
  predicate Uninterrupted(v: Visit)
  {
    && !v.cancelDuringFetch && !v.cancelDuringPause
    && !(v.result.Rejected? && IsAbort(v.result.error))
  }

  /** The state after one uninterrupted repository: its batch classified and
      the repository counted, or, after a failed fetch, the toast shown. */
  function UninterruptedNext(s: ScriptState, repo: string, v: Visit): ScriptState
  {
    var t := CommitsProcessed(s, Batch(v), repo).0;
    if Answered(v) then t.(repoCounter := t.repoCounter + 1) else t.(isToastVisible := true)
  }

  /** The number of visits whose fetch answered ok. */
  function AnsweredCount(visits: seq<Visit>): (n: nat)
    ensures n <= |visits|
  {
    if visits == [] then 0 else (if Answered(visits[0]) then 1 else 0) + AnsweredCount(visits[1..])
  }

  /** One uninterrupted repository at the head of a walk: the walk goes on
      from `UninterruptedNext` with the rest, still uncancelled, with the
      repository counted exactly when its fetch answered ok and the toast
      shown exactly when it did not. */
  lemma UninterruptedStep(s: ScriptState, repos: seq<string>, visits: seq<Visit>)
    requires |repos| == |visits| && repos != []
    requires !Aborted(s)
    requires Uninterrupted(visits[0])
    ensures var s1 := UninterruptedNext(s, repos[0], visits[0]);
      && Walked(s, repos, visits) == Walked(s1, repos[1..], visits[1..])
      && !Aborted(s1) && s1.username == s.username
      && s1.commitCounter == s.commitCounter + |Batch(visits[0])|
      && s1.repoCounter == s.repoCounter + (if Answered(visits[0]) then 1 else 0)
      && s1.isToastVisible == (s.isToastVisible || !Answered(visits[0]))
      && s.unknownMapping.Keys <= s1.unknownMapping.Keys
  {
    var v := visits[0];
    var cs := Batch(v);
    BatchOutcome(s, cs, repos[0]);
    BatchFrame(s, cs, repos[0]);
    BatchKeepsAttributions(s, cs, repos[0]);
    if v.result.Response? && !v.result.ok {
      assert |FetchErrorPrefix + v.result.statusText| != |AbortMessage|;
    }
  }

  /** The tail of a walk whose visits are all uninterrupted. */
  lemma UninterruptedTail(visits: seq<Visit>)
    requires visits != []
    requires forall i :: 0 <= i < |visits| ==> Uninterrupted(visits[i])
    ensures Uninterrupted(visits[0])
    ensures forall i :: 0 <= i < |visits[1..]| ==> Uninterrupted(visits[1..][i])
  {
  }

  /** A walk no cancellation touches counts every commit of every batch it
      classifies and loses no key of the unknown mapping, whatever fetches
      fail on the way. */
  lemma {:induction false} UninterruptedWalkCountsEveryCommit(s: ScriptState, repos: seq<string>, visits: seq<Visit>)
    requires |repos| == |visits|
    requires !Aborted(s)
    requires forall i :: 0 <= i < |visits| ==> Uninterrupted(visits[i])
    ensures var r := Walked(s, repos, visits).0;
      && r.commitCounter == s.commitCounter + BatchSizes(visits)
      && s.unknownMapping.Keys <= r.unknownMapping.Keys
    decreases |repos|
  {
    if repos != [] {
      UninterruptedTail(visits);
      UninterruptedStep(s, repos, visits);
      UninterruptedWalkCountsEveryCommit(UninterruptedNext(s, repos[0], visits[0]), repos[1..], visits[1..]);
    }
  }

  /** A walk no cancellation touches ends normally, counts exactly the
      repositories whose fetch answered ok, and shows the toast exactly when
      some fetch failed (or it was already shown). */
  lemma {:induction false} UninterruptedWalkCountsAnswered(s: ScriptState, repos: seq<string>, visits: seq<Visit>)
    requires |repos| == |visits|
    requires !Aborted(s)
    requires forall i :: 0 <= i < |visits| ==> Uninterrupted(visits[i])
    ensures var (r, o) := Walked(s, repos, visits);
      && o == Normal
      && r.repoCounter == s.repoCounter + AnsweredCount(visits)
      && r.isToastVisible == (s.isToastVisible || AnsweredCount(visits) < |visits|)
      && !Aborted(r)
    decreases |repos|
  {
    if repos != [] {
      UninterruptedTail(visits);
      UninterruptedStep(s, repos, visits);
      UninterruptedWalkCountsAnswered(UninterruptedNext(s, repos[0], visits[0]), repos[1..], visits[1..]);
    }
  }

  /** Whatever happens during a visit, its mappings and commit counter are
      those of classifying its batch from the state after the fetch: an
      error or a pause changes neither. */
  lemma VisitClassifiesBatch(s: ScriptState, repo: string, v: Visit)
    ensures var r := RepoVisited(s, repo, v).0;
      var t := CommitsProcessed(Resumed(s, v.cancelDuringFetch), Batch(v), repo).0;
      && r.usernameMapping == t.usernameMapping
      && r.emailMapping == t.emailMapping
      && r.unknownMapping == t.unknownMapping
      && r.commitCounter == t.commitCounter
  {
    var s1 := Resumed(s, v.cancelDuringFetch);
    var t := CommitsProcessed(s1, Batch(v), repo).0;
    var (u, thrown) := VisitTried(s, repo, v);
    assert SameClassification(u, t) by {
      if Answered(v) {
        var p := CommitsProcessed(s1, v.result.commits, repo);
        if p.1.Throw? {
          assert u == p.0;
        } else {
          assert u == Paused(p.0, v.cancelDuringPause).0;
        }
      } else {
        assert u == s1;
      }
    }
    if thrown.Some? {
      assert SameClassification(RepoErrorHandled(u, thrown.value).0, u);
    }
  }

  /** Two states with the same mappings and commit counter. */
  predicate SameClassification(r: ScriptState, t: ScriptState)
  {
    && r.usernameMapping == t.usernameMapping
    && r.emailMapping == t.emailMapping
    && r.unknownMapping == t.unknownMapping
    && r.commitCounter == t.commitCounter
  }

  /** A visit with no cancel while its fetch is pending classifies its whole
      batch, for the username and email mappings. */
  lemma VisitRecordsBatch(s: ScriptState, repo: string, v: Visit)
    requires !Aborted(s) && !v.cancelDuringFetch
    ensures var r := RepoVisited(s, repo, v).0;
      && r.usernameMapping == UsernamesAfterAll(s.usernameMapping, Batch(v), s.username, repo)
      && r.emailMapping == EmailsAfterAll(s.emailMapping, Batch(v), s.username, repo)
  {
    VisitClassifiesBatch(s, repo, v);
    BatchMappings(s, Batch(v), repo);
  }

  /** First write wins across a walk: a name of the user's commits that the
      mapping did not hold and no earlier processed repository carried is
      recorded with the first repository whose commits carry it. The earlier
      repositories may be skipped after a failed fetch, and whatever happens
      from that repository's pause on does not matter. */
  lemma {:induction false} EarliestRepositoryWinsName(s: ScriptState, repos: seq<string>, visits: seq<Visit>, i: nat, name: string)
    requires |repos| == |visits| && i < |repos|
    requires !Aborted(s)
    requires forall j :: 0 <= j < i ==> Uninterrupted(visits[j])
    requires !visits[i].cancelDuringFetch
    requires name !in s.usernameMapping
    requires name in UserNames(Batch(visits[i]), s.username)
    requires forall j :: 0 <= j < i ==> name !in UserNames(Batch(visits[j]), s.username)
    ensures var r := Walked(s, repos, visits).0;
      name in r.usernameMapping && r.usernameMapping[name] == repos[i]
    decreases i
  {
    var cs := Batch(visits[0]);
    if i == 0 {
      VisitRecordsBatch(s, repos[0], visits[0]);
      UsernamesFirstWriteWins(s.usernameMapping, cs, s.username, repos[0]);
      var (s1, o) := RepoVisited(s, repos[0], visits[0]);
      if o.Normal? {
        WalkKeepsAttributions(s1, repos[1..], visits[1..]);
      }
    } else {
      UninterruptedStep(s, repos, visits);
      BatchUserAttribution(s, cs, repos[0]);
      var s1 := UninterruptedNext(s, repos[0], visits[0]);
      assert name !in s1.usernameMapping;
      assert visits[1..][i - 1] == visits[i];
      forall j | 0 <= j < i - 1
        ensures Uninterrupted(visits[1..][j]) && name !in UserNames(Batch(visits[1..][j]), s1.username)
      {
        assert visits[1..][j] == visits[j + 1];
      }
      EarliestRepositoryWinsName(s1, repos[1..], visits[1..], i - 1, name);
    }
  }

  /** The same for the email mapping: an email first carried by repository
      `i` is recorded with `repos[i]`, however many later repositories
      carry it too. */
  lemma {:induction false} EarliestRepositoryWinsEmail(s: ScriptState, repos: seq<string>, visits: seq<Visit>, i: nat, email: string)
    requires |repos| == |visits| && i < |repos|
    requires !Aborted(s)
    requires forall j :: 0 <= j < i ==> Uninterrupted(visits[j])
    requires !visits[i].cancelDuringFetch
    requires email !in s.emailMapping
    requires email in UserEmails(Batch(visits[i]), s.username)
    requires forall j :: 0 <= j < i ==> email !in UserEmails(Batch(visits[j]), s.username)
    ensures var r := Walked(s, repos, visits).0;
      email in r.emailMapping && r.emailMapping[email] == repos[i]
    decreases i
  {
    var cs := Batch(visits[0]);
    if i == 0 {
      VisitRecordsBatch(s, repos[0], visits[0]);
      EmailsFirstWriteWins(s.emailMapping, cs, s.username, repos[0]);
      var (s1, o) := RepoVisited(s, repos[0], visits[0]);
      if o.Normal? {
        WalkKeepsAttributions(s1, repos[1..], visits[1..]);
      }
    } else {
      UninterruptedStep(s, repos, visits);
      BatchUserAttribution(s, cs, repos[0]);
      var s1 := UninterruptedNext(s, repos[0], visits[0]);
      assert email !in s1.emailMapping;
      assert visits[1..][i - 1] == visits[i];
      forall j | 0 <= j < i - 1
        ensures Uninterrupted(visits[1..][j]) && email !in UserEmails(Batch(visits[1..][j]), s1.username)
      {
        assert visits[1..][j] == visits[j + 1];
      }
      EarliestRepositoryWinsEmail(s1, repos[1..], visits[1..], i - 1, email);
    }
  }

  /** A visit whose batch does not hold `k` as the name or email of a commit
      without a handle leaves `k` in the unknown mapping as it was. */
  lemma VisitKeepsUnknown(s: ScriptState, repo: string, v: Visit, k: string)
    requires k !in UnattributedKeys(Batch(v))
    ensures var r := RepoVisited(s, repo, v).0;
      && (k in r.unknownMapping <==> k in s.unknownMapping)
      && (k in s.unknownMapping ==> r.unknownMapping[k] == s.unknownMapping[k])
  {
    VisitClassifiesBatch(s, repo, v);
    var s1 := Resumed(s, v.cancelDuringFetch);
    assert s1.unknownMapping == s.unknownMapping;
    if Aborted(s1) {
      BatchOutcome(s1, Batch(v), repo);
    } else {
      BatchUnknownAttribution(s1, Batch(v), repo);
    }
  }

  /** For any walk: a key that no batch holds as the name or email of a
      commit without a handle is in the unknown mapping at the end exactly
      when it was at the start, with the same repository. */
  lemma {:induction false} UnknownUntouched(s: ScriptState, repos: seq<string>, visits: seq<Visit>, k: string)
    requires |repos| == |visits|
    requires forall j :: 0 <= j < |visits| ==> k !in UnattributedKeys(Batch(visits[j]))
    ensures var r := Walked(s, repos, visits).0;
      && (k in r.unknownMapping <==> k in s.unknownMapping)
      && (k in s.unknownMapping ==> r.unknownMapping[k] == s.unknownMapping[k])
    decreases |repos|
  {
    if repos != [] && !Aborted(s) {
      VisitKeepsUnknown(s, repos[0], visits[0], k);
      var (s1, o) := RepoVisited(s, repos[0], visits[0]);
      if o.Normal? {
        forall j | 0 <= j < |visits[1..]| ensures k !in UnattributedKeys(Batch(visits[1..][j])) {
          assert visits[1..][j] == visits[j + 1];
        }
        UnknownUntouched(s1, repos[1..], visits[1..], k);
      }
    }
  }

  /** Last write wins across a walk, for the unknown mapping: a name or email
      of a commit without a handle ends up mapped to the last repository
      whose batch carries it. The repositories before it may be skipped
      after a failed fetch; the ones after it may end the walk in any way. */
  lemma {:induction false} LatestRepositoryWinsUnknown(s: ScriptState, repos: seq<string>, visits: seq<Visit>, i: nat, k: string)
    requires |repos| == |visits| && i < |repos|
    requires !Aborted(s)
    requires forall j :: 0 <= j < i ==> Uninterrupted(visits[j])
    requires !visits[i].cancelDuringFetch
    requires k in UnattributedKeys(Batch(visits[i]))
    requires forall j :: i < j < |visits| ==> k !in UnattributedKeys(Batch(visits[j]))
    ensures var r := Walked(s, repos, visits).0;
      k in r.unknownMapping && r.unknownMapping[k] == repos[i]
    decreases i
  {
    if i == 0 {
      VisitClassifiesBatch(s, repos[0], visits[0]);
      BatchUnknownAttribution(s, Batch(visits[0]), repos[0]);
      var (s1, o) := RepoVisited(s, repos[0], visits[0]);
      if o.Normal? {
        forall j | 0 <= j < |visits[1..]| ensures k !in UnattributedKeys(Batch(visits[1..][j])) {
          assert visits[1..][j] == visits[j + 1];
        }
        UnknownUntouched(s1, repos[1..], visits[1..], k);
      }
    } else {
      UninterruptedStep(s, repos, visits);
      var s1 := UninterruptedNext(s, repos[0], visits[0]);
      assert visits[1..][i - 1] == visits[i];
      forall j | 0 <= j < i - 1 ensures Uninterrupted(visits[1..][j]) {
        assert visits[1..][j] == visits[j + 1];
      }
      forall j | i - 1 < j < |visits[1..]| ensures k !in UnattributedKeys(Batch(visits[1..][j])) {
        assert visits[1..][j] == visits[j + 1];
      }
      LatestRepositoryWinsUnknown(s1, repos[1..], visits[1..], i - 1, k);
    }
  }

  /** A failed fetch (a rejection other than a cancellation, or a response
      that is not ok) shows the toast, does not count the repository and the
      walk goes on with the next one. */
  lemma FailedFetchIsSkipped(s: ScriptState, repos: seq<string>, visits: seq<Visit>)
    requires |repos| == |visits| && repos != []
    requires !Aborted(s) && !visits[0].cancelDuringFetch
    requires match visits[0].result
      case Rejected(e) => !IsAbort(e)
      case Response(ok, _, _) => !ok
    ensures Walked(s, repos, visits) == Walked(s.(isToastVisible := true), repos[1..], visits[1..])
  {
    var v := visits[0];
    if v.result.Response? {
      assert |FetchErrorPrefix + v.result.statusText| != |AbortMessage|;
    }
  }

  /** Once the controller is aborted, the check before the next repository
      ends the walk with nothing changed. */
  lemma CancelledWalkStops(s: ScriptState, repos: seq<string>, visits: seq<Visit>)
    requires |repos| == |visits| && repos != []
    requires Aborted(s)
    ensures Walked(s, repos, visits) == (s, Throw(NewError(AbortMessage)))
  {
  }

  /** A cancellation while a repository's fetch is pending: its commits
      change no mapping and no commit counter, the repository is counted at
      most once (when its response was ok and held no commits), and the walk
      can only go on after a failed fetch. */
  lemma CancelledVisit(s: ScriptState, repo: string, v: Visit)
    requires s.abortController.Some? && v.cancelDuringFetch
    ensures var (r, o) := RepoVisited(s, repo, v);
      && r.usernameMapping == s.usernameMapping
      && r.emailMapping == s.emailMapping
      && r.unknownMapping == s.unknownMapping
      && r.commitCounter == s.commitCounter
      && r.repoCounter <= s.repoCounter + 1
      && !r.processing && Aborted(r)
      && (o.Normal? ==> !Answered(v))
  {
    var s1 := Cancelled(s);
    assert Aborted(s1) && !s1.processing;
    if Answered(v) {
      var cs := v.result.commits;
      if cs != [] {
        assert CommitsProcessed(s1, cs, repo) == (s1, Throw(NewError(AbortMessage)));
      } else {
        assert CommitsProcessed(s1, cs, repo) == (s1, Normal);
      }
    }
  }

  /** A cancellation while a repository's fetch is pending: that repository's
      commits change no mapping and no commit counter, it is counted at most
      once, and the walk stops there unless it was the last repository. */
  lemma CancelDuringFetchStopsWalk(s: ScriptState, repos: seq<string>, visits: seq<Visit>)
    requires |repos| == |visits| && repos != []
    requires s.abortController.Some? && !s.abortController.value.aborted
    requires visits[0].cancelDuringFetch
    ensures var (r, o) := Walked(s, repos, visits);
      && r.usernameMapping == s.usernameMapping
      && r.emailMapping == s.emailMapping
      && r.unknownMapping == s.unknownMapping
      && r.commitCounter == s.commitCounter
      && r.repoCounter <= s.repoCounter + 1
      && !r.processing
      && (o.Throw? || |repos| == 1)
  {
    CancelledVisit(s, repos[0], visits[0]);
    var (s2, o) := RepoVisited(s, repos[0], visits[0]);
    if o.Normal? && |repos| > 1 {
      CancelledWalkStops(s2, repos[1..], visits[1..]);
    }
  }

  /** A cancellation during the pause after a classified batch: the
      repository is counted, the check after the pause throws, and the walk
      ends there without a toast. */
  lemma CancelDuringPauseStopsWalk(s: ScriptState, repos: seq<string>, visits: seq<Visit>)
    requires |repos| == |visits| && repos != []
    requires s.abortController.Some? && !s.abortController.value.aborted
    requires !visits[0].cancelDuringFetch && Answered(visits[0]) && visits[0].cancelDuringPause
    ensures var (r, o) := Walked(s, repos, visits);
      && o == Throw(NewError(AbortMessage))
      && r.repoCounter == s.repoCounter + 1
      && r.commitCounter == s.commitCounter + |visits[0].result.commits|
      && r.isToastVisible == s.isToastVisible
      && !r.processing && Aborted(r)
  {
    var cs := visits[0].result.commits;
    BatchOutcome(s, cs, repos[0]);
    BatchFrame(s, cs, repos[0]);
  }

  /** When every visit is quiet, the toast is never shown: a cancellation
      during a pause is rethrown, not reported. */
  lemma {:induction false} QuietWalkShowsNoToast(s: ScriptState, repos: seq<string>, visits: seq<Visit>)
    requires |repos| == |visits|
    requires forall i :: 0 <= i < |visits| ==> Quiet(visits[i])
    ensures Walked(s, repos, visits).0.isToastVisible == s.isToastVisible
    decreases |repos|
  {
    if repos != [] && !Aborted(s) {
      var v := visits[0];
      assert Quiet(v);
      if Answered(v) {
        BatchFrame(s, v.result.commits, repos[0]);
        BatchOutcome(s, v.result.commits, repos[0]);
      }
      var (s2, o) := RepoVisited(s, repos[0], v);
      assert s2.isToastVisible == s.isToastVisible;
      if o.Normal? {
        assert forall i :: 0 <= i < |visits[1..]| ==> Quiet(visits[1..][i]) by {
          forall i | 0 <= i < |visits[1..]| ensures Quiet(visits[1..][i]) {
            assert visits[1..][i] == visits[i + 1];
          }
        }
        QuietWalkShowsNoToast(s2, repos[1..], visits[1..]);
      }
    }
  }
}
