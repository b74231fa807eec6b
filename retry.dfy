/** The retry policy of `download_track`. With `blocking` (the default every
    caller uses) the worker job is tried up to five times, stopping at the
    first attempt that does not raise; each failure is logged with its
    attempt index and, after five failures, a give-up line reports the last
    index. Without `blocking` the job goes to the thread pool once. Whether
    an attempt raises depends on the network and the service, so it is a
    parameter: `succeeds(i)` says whether attempt i completes. */
module Retry {
  import opened Wrappers

  const MAX_ATTEMPTS: nat := 5

  datatype Report =
    | Done             // an attempt completed; `download_track` returned
    | GaveUp(last: nat) // "Giving up after %d tries" with the loop variable
    | Submitted        // handed to the pool, not awaited

  /** The first attempt below n that completes, if any. */
  function FirstSuccess(succeeds: nat -> bool, n: nat): (r: Option<nat>)
    ensures r.None? <==> forall j :: 0 <= j < n ==> !succeeds(j)
    ensures r.Some? ==> (r.value < n && succeeds(r.value)
      && forall j :: 0 <= j < r.value ==> !succeeds(j))
  {
    if n == 0 then None
    else match FirstSuccess(succeeds, n - 1)
      case Some(k) => Some(k)
      case None => if succeeds(n - 1) then Some(n - 1) else None
  }

  /** `download_track(tid, blocking)`: how many times the worker job runs, the
      attempt indices logged as failed, and how the call ends. */
  method DownloadTrack(succeeds: nat -> bool, blocking: bool)
    returns (runs: nat, failed: seq<nat>, report: Report)
    ensures !blocking ==> runs == 1 && failed == [] && report == Submitted
    ensures blocking ==> 1 <= runs <= MAX_ATTEMPTS
    ensures blocking ==> failed == seq(|failed|, i => i)
    ensures blocking ==> forall k: nat :: succeeds(k) && (forall j :: 0 <= j < k ==> !succeeds(j)) ==>
      runs == Min(MAX_ATTEMPTS, k + 1)
    ensures blocking ==> match FirstSuccess(succeeds, MAX_ATTEMPTS)
      case Some(k) => runs == k + 1 && |failed| == k && report == Done
      case None => runs == MAX_ATTEMPTS && |failed| == MAX_ATTEMPTS && report == GaveUp(MAX_ATTEMPTS - 1)
  {
    if !blocking {
      return 1, [], Submitted;
    }
    runs, failed := 0, [];
    var attempt := 0;
    while attempt < MAX_ATTEMPTS
      invariant attempt <= MAX_ATTEMPTS
      invariant runs == attempt && failed == seq(attempt, i => i)
      invariant forall j :: 0 <= j < attempt ==> !succeeds(j)
    {
      runs := runs + 1;
      if succeeds(attempt) {
        assert FirstSuccess(succeeds, MAX_ATTEMPTS) == Some(attempt);
        return runs, failed, Done;
      }
      failed := failed + [attempt];
      attempt := attempt + 1;
    }
    report := GaveUp(attempt - 1);
  }

  /** Download a batch of jobs in order, job i's attempts given by `succeeds(i)`.
      A job that gives up does not stop the batch. */
  method DownloadAll(n: nat, succeeds: nat -> nat -> bool) returns (reports: seq<Report>)
    ensures |reports| == n
    ensures forall i :: 0 <= i < n ==>
      (reports[i] == Done <==> FirstSuccess(succeeds(i), MAX_ATTEMPTS).Some?)
    ensures forall i :: 0 <= i < n ==>
      (reports[i] == GaveUp(MAX_ATTEMPTS - 1) <==> FirstSuccess(succeeds(i), MAX_ATTEMPTS).None?)
  {
    reports := [];
    for i := 0 to n
      invariant |reports| == i
      invariant forall j :: 0 <= j < i ==>
        (reports[j] == Done <==> FirstSuccess(succeeds(j), MAX_ATTEMPTS).Some?)
      invariant forall j :: 0 <= j < i ==>
        (reports[j] == GaveUp(MAX_ATTEMPTS - 1) <==> FirstSuccess(succeeds(j), MAX_ATTEMPTS).None?)
    {
      var runs, failed, report := DownloadTrack(succeeds(i), true);
      reports := reports + [report];
    }
  }
}
