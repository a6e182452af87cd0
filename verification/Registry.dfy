/** The background refresh of the app registry: keep the last good list, and stop cleanly. */
module Registry {
  type App = string

  const SELF_APP_ENTRY: App := "ha-dashboard"

  /** One trip round the loop: the fetch brings a list, or raises, or brings something the source's update
      raises on. Only the fetch is guarded. */
  datatype Attempt = Fetched(apps: seq<App>) | FetchRaised | UpdateRaised

  /** Where the cancellation finds the task: not yet started, in the n-th fetch, or in the n-th sleep. */
  datatype CancelPoint = NotStarted | InFetch(n: nat) | InSleep(n: nat)

  datatype Status = Running | CancelledTask | FailedTask

  /** How many attempts are over when the cancellation arrives. */
  function Turns(c: CancelPoint): nat {
    match c
    case NotStarted => 0
    case InFetch(n) => n
    case InSleep(n) => n + 1
  }

  /** How many of the first n attempts the loop gets through before one it cannot survive. */
  function Survived(attempts: nat -> Attempt, n: nat): (k: nat)
    ensures k <= n
    ensures forall i :: 0 <= i < k ==> !attempts(i).UpdateRaised?
    ensures k < n ==> attempts(k).UpdateRaised?
  {
    if n == 0 then 0
    else
      var k := Survived(attempts, n - 1);
      if k == n - 1 && !attempts(k).UpdateRaised? then n else k
  }

  /** The list the source holds after n attempts. */
  function LastGood(attempts: nat -> Attempt, n: nat): seq<App> {
    if n == 0 then [SELF_APP_ENTRY]
    else match attempts(n - 1)
      case Fetched(apps) => apps
      case _ => LastGood(attempts, n - 1)
  }

  /** Some fetch has succeeded. */
  predicate AnyGood(attempts: nat -> Attempt, n: nat) {
    n > 0 && (attempts(n - 1).Fetched? || AnyGood(attempts, n - 1))
  }

  lemma NoAttemptYet(attempts: nat -> Attempt)
    ensures LastGood(attempts, 0) == [SELF_APP_ENTRY] && !AnyGood(attempts, 0) && Survived(attempts, 0) == 0
  {
  }

  lemma OneMoreAttempt(attempts: nat -> Attempt, i: nat)
    requires Survived(attempts, i) == i
    ensures LastGood(attempts, i + 1) == if attempts(i).Fetched? then attempts(i).apps else LastGood(attempts, i)
    ensures AnyGood(attempts, i + 1) <==> attempts(i).Fetched? || AnyGood(attempts, i)
    ensures Survived(attempts, i + 1) == if attempts(i).UpdateRaised? then i else i + 1
  {
  }

  lemma SurvivedStopsAt(attempts: nat -> Attempt, i: nat, n: nat)
    requires Survived(attempts, i) == i && i < n && attempts(i).UpdateRaised?
    ensures Survived(attempts, n) == i
  {
  }

  class RefreshTask {
    var apps: seq<App>
    var refreshed: bool
    var status: Status
    var clientOpen: bool

    constructor ()
      ensures apps == [SELF_APP_ENTRY] && !refreshed && status == Running && clientOpen
    {
      apps, refreshed, status, clientOpen := [SELF_APP_ENTRY], false, Running, true;
    }

    /** The loop, up to the await at which it is cancelled. */
    method RefreshLoop(attempts: nat -> Attempt, cancel: CancelPoint)
      requires apps == [SELF_APP_ENTRY] && !refreshed && status == Running
      modifies this`apps, this`refreshed, this`status
      ensures apps == LastGood(attempts, Survived(attempts, Turns(cancel)))
      ensures refreshed <==> AnyGood(attempts, Survived(attempts, Turns(cancel)))
      ensures cancel.NotStarted? ==> apps == [SELF_APP_ENTRY] && status == CancelledTask
      ensures cancel.InFetch? && Survived(attempts, cancel.n) == cancel.n ==>
                apps == LastGood(attempts, cancel.n) && status == CancelledTask
      ensures cancel.InSleep? && Survived(attempts, cancel.n + 1) == cancel.n + 1 ==>
                apps == LastGood(attempts, cancel.n + 1) && status == CancelledTask
      ensures cancel == InSleep(0) && attempts(0).Fetched? ==> apps == attempts(0).apps && refreshed
      ensures status == if Survived(attempts, Turns(cancel)) < Turns(cancel) then FailedTask else CancelledTask
    {
      hide LastGood, AnyGood, Survived;
      NoAttemptYet(attempts);
      if cancel.NotStarted? {
        status := CancelledTask;
        return;
      }
      var i := 0;
      while true
        invariant 0 <= i <= cancel.n && Survived(attempts, i) == i
        invariant apps == LastGood(attempts, i) && (refreshed <==> AnyGood(attempts, i)) && status == Running
        decreases cancel.n - i
      {
        if cancel == InFetch(i) {
          status := CancelledTask;
          return;
        }
        OneMoreAttempt(attempts, i);
        match attempts(i) {
          case FetchRaised =>
          case UpdateRaised =>
            status := FailedTask;
            SurvivedStopsAt(attempts, i, Turns(cancel));
            return;
          case Fetched(fetched) =>
            apps := fetched;
            refreshed := true;
        }
        if cancel == InSleep(i) {
          status := CancelledTask;
          return;
        }
        i := i + 1;
      }
    }

    /** Stopping: the cancellation lands somewhere in the loop; then the task is awaited with only its
        cancellation suppressed, and the client closed. A loop that had already failed raises here, and
        the client is never closed. */
    method RunUntilStopped(attempts: nat -> Attempt, cancel: CancelPoint) returns (raised: bool)
      requires apps == [SELF_APP_ENTRY] && !refreshed && status == Running && clientOpen
      modifies this
      ensures status != Running
      ensures apps == LastGood(attempts, Survived(attempts, Turns(cancel)))
      ensures raised <==> Survived(attempts, Turns(cancel)) < Turns(cancel)
      ensures clientOpen <==> raised
    {
      RefreshLoop(attempts, cancel);
      if status == FailedTask {
        return true;
      }
      clientOpen := false;
      raised := false;
    }
  }

  /** The k-th attempt is the last of the first n that brought a list, and the source holds that list. */
  ghost predicate HoldsAttempt(attempts: nat -> Attempt, n: nat, k: nat) {
    && k < n && attempts(k).Fetched? && LastGood(attempts, n) == attempts(k).apps
    && forall j: nat :: k < j < n ==> !attempts(j).Fetched?
  }

  /** After any number of attempts the source holds the list of the last one that succeeded, or its own
      entry alone if none has. */
  lemma {:induction false} HoldsTheLastGoodList(attempts: nat -> Attempt, n: nat)
    ensures AnyGood(attempts, n) ==> exists k: nat :: HoldsAttempt(attempts, n, k)
    ensures !AnyGood(attempts, n) ==>
      LastGood(attempts, n) == ["ha-dashboard"] && forall j: nat :: j < n ==> !attempts(j).Fetched?
  {
    if n == 0 {
    } else {
      HoldsTheLastGoodList(attempts, n - 1);
      if attempts(n - 1).Fetched? {
        assert HoldsAttempt(attempts, n, n - 1);
      } else if AnyGood(attempts, n) {
        var k: nat :| HoldsAttempt(attempts, n - 1, k);
        assert HoldsAttempt(attempts, n, k);
      }
    }
  }

  /** Unless updating the source raises, the loop gets through every attempt, however many fetches fail. */
  lemma SurvivesEveryFetchFailure(attempts: nat -> Attempt, n: nat)
    requires forall i: nat :: !attempts(i).UpdateRaised?
    ensures Survived(attempts, n) == n
  {
  }
}
