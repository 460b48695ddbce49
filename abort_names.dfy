/**
 A browser reports an aborted request by rejecting it with an exception
 whose `name` is "AbortError" and whose `message` is a sentence of the
 browser's own. The script's two error handlers recognise a cancellation by
 `message` alone, so a cancel that interrupts a pending request is reported
 with the toast like any other failure (`CancelDuringFetchShowsToast` in
 `LifecycleProperties`). This module gives both handlers the intended test,
 by `name` as well as by `message`, and shows that with it every
 cancellation is silent.
 */
module AbortNames {
  import opened SearchState
  import opened WalkerProperties
  import opened LifecycleProperties

  const AbortName: string := "AbortError"

  /** The exception a browser rejects an aborted request with. */
  predicate IsBrowserAbort(e: Error)
  {
    e.name == AbortName
  }

  /** The intended test: a cancellation, by name or by message. */
  predicate IsAbortIntended(e: Error)
  {
    IsBrowserAbort(e) || IsAbort(e)
  }

  /** `handleSearchError` with the intended test. */
  function SearchErrorHandledIntended(s: ScriptState, e: Error): ScriptState
  {
    if IsAbortIntended(e) then s else s.(isToastVisible := true)
  }

  /** `handleRepoProcessingError` with the intended test. */
  function RepoErrorHandledIntended(s: ScriptState, e: Error): (ScriptState, Outcome)
  {
    if IsAbortIntended(e) then (s, Throw(NewError(AbortMessage)))
    else (s.(isToastVisible := true), Normal)
  }

  /** A cancellation in any form becomes the script's own `new Error('AbortError')`. */
  function Recognised(e: Error): Error
  {
    if IsAbortIntended(e) then NewError(AbortMessage) else e
  }

  /** The intended handlers act on an error as the code's handlers act on
      its recognised form, and only cancellations are rewritten. */
  lemma HandlersAgreeOnRecognised(s: ScriptState, e: Error)
    ensures SearchErrorHandledIntended(s, e) == SearchErrorHandled(s, Recognised(e))
    ensures RepoErrorHandledIntended(s, e) == RepoErrorHandled(s, Recognised(e))
    ensures IsAbort(Recognised(e)) == IsAbortIntended(e)
    ensures !IsAbortIntended(e) ==> Recognised(e) == e
  {
  }

  function VisitRecognised(v: Visit): Visit
  {
    if v.result.Rejected? then v.(result := Rejected(Recognised(v.result.error))) else v
  }

  function ListingRecognised(l: Listing): Listing
  {
    match l.result
    case ListFailed(e) => l.(result := ListFailed(Recognised(e)))
    case Listed(repos) =>
      l.(result := Listed(seq(|repos|, i requires 0 <= i < |repos| => repos[i].(visit := VisitRecognised(repos[i].visit)))))
  }

  /** `runSearch` with both handlers testing `name` as well as `message`. The
      errors that reach a handler are the rejections of the listing and of the
      fetches, or errors the script throws itself, which `Recognised` leaves
      as they are; by `HandlersAgreeOnRecognised` the corrected handlers then
      act as the code's handlers on the recognised environment. */
  function SearchRunIntended(s: ScriptState, listing: Listing): ScriptState
  {
    SearchRun(s, ListingRecognised(listing))
  }

  /** The environment a browser produces: a cancel while a request is pending
      rejects it with the browser's abort exception; a request no cancel
      interrupts succeeds (the listing) or answers ok (a fetch). */
  predicate Cooperative(v: Visit)
  {
    if v.cancelDuringFetch then v.result.Rejected? && IsBrowserAbort(v.result.error)
    else Answered(v)
  }

  predicate CooperativeListing(l: Listing)
  {
    && (if l.cancelDuringListing then l.result.ListFailed? && IsBrowserAbort(l.result.error)
        else l.result.Listed?)
    && (l.result.Listed? ==> forall i :: 0 <= i < |l.result.repos| ==> Cooperative(l.result.repos[i].visit))
  }

  /** Corrected: with the intended test, a cancellation is silent wherever
      it happens, during the listing, during a fetch or during a pause. */
  lemma IntendedCancellationIsSilent(s: ScriptState, listing: Listing)
    requires s.username != "" && !s.processing
    requires CooperativeListing(listing)
    ensures SearchRunIntended(s, listing).isToastVisible == s.isToastVisible
  {
    var l := ListingRecognised(listing);
    match listing.result
    case ListFailed(e) =>
      assert IsAbort(l.result.error);
      FailedListingCountsAsDone(s, l);
    case Listed(repos) =>
      var repos' := l.result.repos;
      forall i | 0 <= i < |repos'| ensures Quiet(repos'[i].visit) {
        assert repos'[i].visit == VisitRecognised(repos[i].visit);
        assert Cooperative(repos[i].visit);
      }
      CancellationIsSilent(s, l);
  }

  /** The same browser environment, a cancel during the first fetch: as
      written the run ends with the toast, with the intended test it does not. */
  lemma FetchCancellationDiffers(s: ScriptState, listing: Listing, message: string)
    requires s.username != "" && !s.processing && !s.isToastVisible
    requires CooperativeListing(listing) && listing.result.Listed? && listing.result.repos != []
    requires listing.result.repos[0].visit.cancelDuringFetch
    requires listing.result.repos[0].visit.result == Rejected(Error(AbortName, message))
    requires message != AbortMessage
    ensures SearchRun(s, listing).isToastVisible
    ensures !SearchRunIntended(s, listing).isToastVisible
  {
    CancelDuringFetchShowsToast(s, listing);
    IntendedCancellationIsSilent(s, listing);
  }
}
