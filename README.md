# git-detective: commit attribution, modelled in Dafny

git-detective's code-snippet component ships a Svelte/TypeScript script as
text. That script is the repository's only logic. It takes a user name and
lists that user's repositories. It then walks the repositories one at a time,
fetches each one's commits, and sorts every commit author into three
mappings:

- `usernameMapping`: author name → repository, for commits whose account
  handle is the searched user's. The first write wins.
- `emailMapping`: author email → repository, for the same commits. The first
  write wins.
- `unknownMapping`: author name and email → repository, for commits with no
  account handle. The last write wins.

The script keeps its progress in counters (`repoListLength`, `repoCounter`,
`commitCounter`) and flags (`processing`, `isDone`, `isToastVisible`). It also
holds an abort controller, which the "cancel" button aborts.

The model has three layers:

- `SearchState` (search_state.dfy) holds a snapshot datatype of all the
  script's module-level variables (`ScriptState`). Each operation is a
  function from the state before to the state after, plus the outcome when
  the operation can throw. `Walked` and `CommitsProcessed` are the two loops.
  `SearchRun` is one click on "search", up to the end of its `finally`
  block.
- `SearchComponent` (search_component.dfy) is the script itself. One class
  has the variables as fields, and its methods update them in place with
  the script's own loops and branches. Each method is proved to leave the
  object in the state the matching `SearchState` function gives.
- `ClassifierProperties`, `WalkerProperties` and `LifecycleProperties` prove
  what the script promises about those functions. `ObjectKeys` models the
  mappings as the plain JavaScript objects they really are, and
  `AbortNames` gives the error handlers the test they evidently intend
  (see Findings).

The network is an input. A `Listing` gives the result of listing the
repositories. Each listed `Repo` carries a `Visit`, which gives the result of
fetching its commits, already parsed into `Commit` records. A click on
"cancel" can only take effect while the script waits at an `await`. The
boolean flags in `Listing` and `Visit` say where it happened: during the
listing, during a commit fetch, or during the pause after a batch. At that
point the model applies `handleCancel`. A thrown error is an
`Error(name, message)`; the script's own `new Error(...)` has the name
`"Error"`. As in the script, an error counts as a cancellation exactly when
its message is `"AbortError"`.

Three behaviours of the code worth knowing:

- The unknown mapping is overwritten (last write wins), not first write wins.
- A listing that fails leaves both repository counters at 0, so the run is
  marked done (`FailedListingCountsAsDone`).
- Cancellation is checked before every commit, not once per batch.

## Model

All source paths below are `src/lib/components/codesnippet/codesnippet.js`, the script inside the `tsCode` string.

| member | source | states |
|---|---|---|
| SearchComponent.Component.constructor | src/lib/components/codesnippet/codesnippet.js:11-23 | the variables start with their declared values: not processing, no toast, not done, no controller, empty username, empty mappings, zero counters |
| SearchComponent.Component.EnterUsername | src/lib/components/codesnippet/codesnippet.js:16 | `username` is declared here and written by the input field's `bind:value` in the component markup, which is not part of this model; entering a name changes `username` and nothing else |
| SearchComponent.Component.RunSearch | src/lib/components/codesnippet/codesnippet.js:25-46 | the new state is `SearchRun` of the old state and the environment: toast on an empty name, no-op while processing, otherwise reset, list, walk, report and finish |
| SearchComponent.Component.FetchRepositories | src/lib/components/codesnippet/codesnippet.js:48-53 | fails without a controller; otherwise the cancellation point of the listing, the listing error rethrown, or `repoListLength` set and the locators returned |
| SearchComponent.Component.ProcessRepositories | src/lib/components/codesnippet/codesnippet.js:55-77 | the loop over the locators ends in the state and outcome `RepositoriesProcessed` gives: a missing controller throws, an abort before a repository ends the walk, a caught error only shows the toast |
| SearchComponent.Component.VisitRepository | src/lib/components/codesnippet/codesnippet.js:62-72 | the `try` block of one repository ends in the state and thrown error `VisitTried` gives: fetch rejection, non-ok response, classification, counter increment, abort after the pause |
| SearchComponent.Component.ProcessCommits | src/lib/components/codesnippet/codesnippet.js:79-96 | the loop over the commits ends in the state and outcome `CommitsProcessed` gives, checking for an abort before each commit |
| SearchComponent.Component.ClearVariables | src/lib/components/codesnippet/codesnippet.js:98-106 | all three mappings empty, all three counters 0, `isDone` false; `username`, `processing`, `isToastVisible` and the controller unchanged |
| SearchComponent.Component.HandleCancel | src/lib/components/codesnippet/codesnippet.js:108-113 | with a controller: it is aborted and `processing` becomes false; without one: nothing changes |
| SearchComponent.Component.HandleSearchError | src/lib/components/codesnippet/codesnippet.js:115-122 | the toast becomes visible exactly when the error is not a cancellation; nothing else changes |
| SearchComponent.Component.HandleRepoProcessingError | src/lib/components/codesnippet/codesnippet.js:124-131 | a cancellation is rethrown with the toast untouched; any other error is swallowed and shows the toast |
| SearchState.RepositoriesFetched | src/lib/components/codesnippet/codesnippet.js:48-53 | a successful result comes only from a successful listing and has one locator per listed repository |
| ClassifierProperties.UsersCommitFirstWriteWins | src/lib/components/codesnippet/codesnippet.js:89-91 | a commit by the searched user adds its name and email if absent; an existing entry keeps its earlier repository; the unknown mapping is unchanged; the counter goes up by 1 |
| ClassifierProperties.UnattributedCommitOverwrites | src/lib/components/codesnippet/codesnippet.js:84-88 | a commit with an absent or empty handle sets both its name and its email in the unknown mapping to the current repository, overwriting; the other mappings are unchanged; the counter goes up by 1 |
| ClassifierProperties.ForeignCommitIgnored | src/lib/components/codesnippet/codesnippet.js:86-94 | a commit whose handle is someone else's changes only the commit counter, by exactly 1 |
| ClassifierProperties.BatchFrame | src/lib/components/codesnippet/codesnippet.js:79-96 | classifying a batch changes nothing but the three mappings and the commit counter, and the counter never decreases |
| ClassifierProperties.BatchOutcome | src/lib/components/codesnippet/codesnippet.js:80-81 | an aborted run throws at the first commit with nothing changed; otherwise the batch ends normally with every commit counted; only a cancellation is ever thrown |
| ClassifierProperties.BatchKeepsAttributions | src/lib/components/codesnippet/codesnippet.js:86-91 | every batch, cancelled or not, keeps each existing username and email entry with its repository and removes no unknown key |
| ClassifierProperties.BatchMappings | src/lib/components/codesnippet/codesnippet.js:80-95 | without a cancellation each mapping evolves independently, commit by commit |
| ClassifierProperties.UsernamesFirstWriteWins | src/lib/components/codesnippet/codesnippet.js:89-90 | after a batch the username mapping's keys are the old keys plus the names of the user's commits; old entries keep their repository, new ones hold this repository |
| ClassifierProperties.EmailsFirstWriteWins | src/lib/components/codesnippet/codesnippet.js:89-91 | the same for the email mapping and the emails of the user's commits |
| ClassifierProperties.UnknownsLastWriteWins | src/lib/components/codesnippet/codesnippet.js:86-88 | after a batch the unknown mapping's keys are the old keys plus the names and emails of the handle-less commits; all of those hold this repository; other entries are untouched |
| ClassifierProperties.BatchUserAttribution | src/lib/components/codesnippet/codesnippet.js:79-96 | an uncancelled `processCommits` gives the username and email mappings exactly the first-write-wins content above; commits by other accounts add nothing |
| ClassifierProperties.BatchUnknownAttribution | src/lib/components/codesnippet/codesnippet.js:79-96 | an uncancelled `processCommits` gives the unknown mapping exactly the last-write-wins content above |
| WalkerProperties.TryBounds | src/lib/components/codesnippet/codesnippet.js:62-72 | one `try` block keeps username, `repoListLength`, `isDone` and the controller's presence; it raises `repoCounter` by at most 1; it never lowers the commit counter or undoes an abort (the exact count is `TryCountsRepository`) |
| WalkerProperties.TryCountsRepository | src/lib/components/codesnippet/codesnippet.js:63-68 | one `try` block raises `repoCounter` by exactly 1 when the fetch answered ok and the whole batch was classified without a cancellation, and otherwise leaves it as it was |
| WalkerProperties.TryKeepsAttributions | src/lib/components/codesnippet/codesnippet.js:62-72 | one `try` block keeps every existing username and email entry with its repository |
| WalkerProperties.VisitStep | src/lib/components/codesnippet/codesnippet.js:58-76 | one iteration has the bounds above, and only a cancellation escapes its `catch` |
| WalkerProperties.WalkBounds | src/lib/components/codesnippet/codesnippet.js:55-77 | the walk keeps username, `repoListLength` and `isDone`; `repoCounter` grows by at most the number of repositories; an abort persists; only a cancellation escapes |
| WalkerProperties.WalkKeepsAttributions | src/lib/components/codesnippet/codesnippet.js:58-76 | across repositories the first write wins: an existing username or email entry keeps its repository for the rest of the walk (what the walk adds is `EarliestRepositoryWinsName` and `EarliestRepositoryWinsEmail`) |
| WalkerProperties.EarliestRepositoryWinsName | src/lib/components/codesnippet/codesnippet.js:58-90 | across the walk the first write wins: a name of the user's commits that the mapping did not hold is recorded with the first repository `i` whose commits carry it, provided no cancellation touched the repositories before `i` (they may have been skipped after a failed fetch, lines 63-64, 129) and none was pending during `i`'s fetch; whatever later repositories carry, and however the walk ends after it, the name keeps `repos[i]` |
| WalkerProperties.EarliestRepositoryWinsEmail | src/lib/components/codesnippet/codesnippet.js:58-91 | the same for emails: under the same conditions, an email first carried by repository `i` ends up mapped to `repos[i]` |
| WalkerProperties.UninterruptedWalkCountsEveryCommit | src/lib/components/codesnippet/codesnippet.js:58-94 | a walk no cancellation touches raises `commitCounter` by the total size of the batches it classifies, skipping failed fetches, and loses no key of the unknown mapping |
| WalkerProperties.UninterruptedWalkCountsAnswered | src/lib/components/codesnippet/codesnippet.js:58-76 | a walk no cancellation touches ends normally and unaborted, raises `repoCounter` by exactly the number of fetches that answered ok, and leaves the toast shown exactly when some fetch failed or it was shown before |
| WalkerProperties.VisitClassifiesBatch | src/lib/components/codesnippet/codesnippet.js:62-75 | whatever happens during one repository (a failed fetch, a cancellation, the pause), its mappings and commit counter are those of classifying its batch from the state after the fetch: errors and the pause change neither |
| WalkerProperties.UnknownUntouched | src/lib/components/codesnippet/codesnippet.js:58-88 | for any walk, a key that no batch carries as the name or email of a commit without a handle is in the unknown mapping at the end exactly when it was at the start, with the same repository |
| WalkerProperties.LatestRepositoryWinsUnknown | src/lib/components/codesnippet/codesnippet.js:58-88 | across the walk the last write wins for the unknown mapping: a name or email of a handle-less commit ends mapped to the last repository `i` whose batch carries it, provided no cancellation touched the repositories before `i` and none was pending during `i`'s fetch |
| WalkerProperties.SmoothWalkCountsEveryRepository | src/lib/components/codesnippet/codesnippet.js:58-76 | with no cancellation and every response ok, the walk ends normally, counts every repository and shows no toast |
| WalkerProperties.FailedFetchIsSkipped | src/lib/components/codesnippet/codesnippet.js:63-64 | a rejected fetch (not a cancellation) or a non-ok response shows the toast, does not count the repository, and the walk continues with the next one |
| WalkerProperties.CancelledWalkStops | src/lib/components/codesnippet/codesnippet.js:60 | once aborted, the check before the next repository ends the walk with nothing changed |
| WalkerProperties.CancelledVisit | src/lib/components/codesnippet/codesnippet.js:62-75 | a cancel during a fetch changes no mapping and no commit counter; the repository is counted at most once; the walk continues only after a failed fetch |
| WalkerProperties.CancelDuringFetchStopsWalk | src/lib/components/codesnippet/codesnippet.js:58-76 | a cancel during the first fetch stops the walk (unless that was the last repository), with no mapping changed and `processing` false |
| WalkerProperties.CancelDuringPauseStopsWalk | src/lib/components/codesnippet/codesnippet.js:67-74 | a cancel during the pause after an ok batch: the repository and all its commits are counted, the check at line 72 throws a cancellation, and the walk ends there with the toast untouched and `processing` false |
| WalkerProperties.QuietWalkShowsNoToast | src/lib/components/codesnippet/codesnippet.js:72-74 | when every fetch either answers ok with no cancel pending or is rejected with an error whose message is "AbortError", the walk never shows the toast; so a cancel during a pause is silent |
| LifecycleProperties.LocatorDropsShaTemplate | src/lib/components/codesnippet/codesnippet.js:52 | the locator is the `commits_url` minus its last six characters: a prefix of the right length, and exactly the URL before a trailing `{/sha}` |
| LifecycleProperties.ListingRecordsRepositories | src/lib/components/codesnippet/codesnippet.js:50-52 | a successful listing sets `repoListLength` to the number of repositories and returns their locators in order |
| LifecycleProperties.EmptyUsernameOnlyShowsToast | src/lib/components/codesnippet/codesnippet.js:26-29 | a click with an empty username only sets the toast: no reset, no run, `processing` unchanged |
| LifecycleProperties.ClickWhileProcessingIgnored | src/lib/components/codesnippet/codesnippet.js:31 | a click while processing changes nothing |
| LifecycleProperties.RunEnds | src/lib/components/codesnippet/codesnippet.js:32-45 | however a started run ends, `processing` is false, the controller is null, `repoCounter <= repoListLength`, and `isDone` holds exactly when the two are equal |
| LifecycleProperties.FailedListingCountsAsDone | src/lib/components/codesnippet/codesnippet.js:39-45 | a failed listing leaves empty mappings and zero counters and marks the run done; the toast shows unless the error is a cancellation |
| LifecycleProperties.SmoothRunCompletes | src/lib/components/codesnippet/codesnippet.js:25-46 | with no cancellation and every fetch ok, the run counts every listed repository, ends done and shows no toast |
| LifecycleProperties.CancellationIsSilent | src/lib/components/codesnippet/codesnippet.js:115-121 | when the listing succeeds and every fetch either answers ok with no cancel pending or is rejected with a recognised cancellation, the run ends without a toast: a cancel during a pause (or during a listing that still returns) is silent |
| LifecycleProperties.CancelDuringFetchShowsToast | src/lib/components/codesnippet/codesnippet.js:63-74 | a cancel while the first commit fetch is pending rejects the fetch with an error whose message is not "AbortError"; the run then ends with the toast shown, not done, with nothing counted |
| LifecycleProperties.CancelDuringFirstFetchLeavesRunUnfinished | src/lib/components/codesnippet/codesnippet.js:41-45 | a cancel during the first of several fetches leaves the run not done, with no commit classified |
| LifecycleProperties.CancelDuringFirstPause | src/lib/components/codesnippet/codesnippet.js:25-77 | a cancel during the pause after the first repository's ok batch: that repository and all its commits are counted, no toast is shown, `processing` is false, and the run is marked done exactly when it had only that one repository |
| LifecycleProperties.UninterruptedRunIsDoneIffEveryFetchAnswers | src/lib/components/codesnippet/codesnippet.js:25-46 | a run no cancellation touches counts exactly the repositories whose fetch answered ok, shows the toast exactly when some fetch failed, and is marked done exactly when every fetch answered ok |
| LifecycleProperties.TwoRepositoryRun | src/lib/components/codesnippet/codesnippet.js:25-96 | worked run for user "alice" with repositories A (one commit by alice) and B (one handle-less commit): the final mappings, counters and flags |
| AbortNames.HandlersAgreeOnRecognised | src/lib/components/codesnippet/codesnippet.js:115-131 | the handlers with the intended test (name or message "AbortError") act on any error as the code's handlers act on its recognised form; errors that are not cancellations are left unchanged |
| AbortNames.IntendedCancellationIsSilent | src/lib/components/codesnippet/codesnippet.js:115-131 | corrected: in a browser environment (a cancel rejects the pending request with the browser's abort exception, anything else succeeds), a cancellation during the listing, a fetch or a pause never shows the toast |
| AbortNames.FetchCancellationDiffers | src/lib/components/codesnippet/codesnippet.js:125-129 | for the same browser environment with a cancel during the first fetch, the run as written shows the toast and the corrected run does not |
| ObjectKeys.AgreesOffInheritedNames | src/lib/components/codesnippet/codesnippet.js:86-91 | for names and emails a plain object does not inherit, object semantics and dictionary semantics classify a commit identically |
| ObjectKeys.InheritedNameNeverAttributed | src/lib/components/codesnippet/codesnippet.js:90 | as written: a commit by the searched user whose author name is "constructor" never enters the username mapping |
| ObjectKeys.UsersCommitAlwaysRecorded | src/lib/components/codesnippet/codesnippet.js:89-91 | corrected: every commit by the searched user ends with its name and email recorded, new entries holding the current repository |

## Left out

- The Octokit client and the `fetch` calls (lines 10, 50, 63) are network I/O. Their results are the `Listing` and `Visit` inputs.
- `response.json()` (line 65) is a foreign call. Its failure is one of the `Rejected` results; its success is a sequence of well-formed `Commit` records.
- Malformed commit records are not modelled. A record without `commit.author` would throw a `TypeError` part-way through a batch.
- The 2-second `setTimeout` pause (line 70) is timing only. The model keeps the cancellation point it offers and the abort check after it (line 72).
- `AbortController` and its signal are reduced to `Controller(aborted)`. A request pending at a cancel rejects in the browser with an exception named `"AbortError"` whose message is the browser's own. The model leaves that rejection to the `Listing` and `Visit` inputs. `Visit` does not rule out an ok response after a cancel during the fetch; `AbortNames.Cooperative` states the environment a browser produces.
- SearchState.Classified (and so `SearchComponent.Component.ProcessCommits` and `SearchComponent.Component.RunSearch`): the three mappings are dictionaries tested on their own keys. They are not the plain objects of lines 17-19, whose `in` test also sees inherited names. `ObjectKeys` models the object semantics; see Findings.
- Thrown values that are not `Error` instances are treated like errors whose message is not `"AbortError"`. That matches how both handlers treat them.
- `console.log` and `console.error` (lines 117, 119, 128) are diagnostics only.
- The Svelte imports (lines 2-8) and the `tsCode` string wrapper (lines 1, 134) are presentation only.
- Overlapping runs are not modelled. `handleCancel` sets `processing` to false while the cancelled run is still suspended. A new click can then start a second run that shares the same variables and controller. The model treats each click on "search" as running to completion before the next event, with cancellations only at its own `await` points.
- Edits to the username field during a run are not modelled. The input bound to `username` stays editable while the run waits at an `await`, and line 89 reads `username` afresh for every commit. The model holds `username` fixed for the whole run; `WalkBounds` and `BatchFrame` state that the run itself never changes it.
- The `TypeError` that line 60 would raise with a null controller is not modelled. In a run that does not overlap another, the controller cannot be null there, because line 56 has checked it and nothing clears it before the `finally` block.

## Findings

| source | as written | input that shows it | evidently intended | confidence | as-written member | corrected member |
|---|---|---|---|---|---|---|
| src/lib/components/codesnippet/codesnippet.js:90-91 | `name in usernameMapping` and `email in emailMapping` test plain objects, so names inherited from `Object.prototype` count as already recorded (and a `__proto__` key is never stored) | a commit by the searched user whose author name is `"constructor"`: it is never entered in `usernameMapping` | record every name and email not yet recorded, testing own keys only | medium; not executed | ObjectKeys.InheritedNameNeverAttributed | ObjectKeys.UsersCommitAlwaysRecorded |
| src/lib/components/codesnippet/codesnippet.js:116-129 | both handlers recognise a cancellation by `error.message === 'AbortError'` only; the browser rejects an aborted `fetch` or `response.json()` with an exception named `"AbortError"` whose message is a sentence such as "signal is aborted without reason" | a click on "cancel" while a commit fetch is pending: line 129 shows the error toast, and the walk then stops at line 60 | a cancellation is silent wherever it happens, e.g. by also testing `error.name === 'AbortError'` | medium; not executed | LifecycleProperties.CancelDuringFetchShowsToast | AbortNames.IntendedCancellationIsSilent |

For the first row, the rest of the model uses the corrected dictionary semantics (`SearchState.Classified`).
`ObjectKeys.AgreesOffInheritedNames` shows the two semantics agree on every other key.

For the second row, the component keeps the code's message test, because it decides the toast for every error.
The corrected run is `AbortNames.SearchRunIntended`.
`AbortNames.HandlersAgreeOnRecognised` shows that it is the run in which both handlers test the name as well.
`AbortNames.FetchCancellationDiffers` sets the two side by side on the same input.
