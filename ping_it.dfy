/** `PingIt` (MyInternetChecker/PingIt.cs): probes a host up to the configured
    number of attempts. The ICMP send is a platform call; here an oracle says
    what each attempt's send does, and whether cancellation had been
    requested before it. The ping policy (`ConfigManager.Ping`) is passed in. */
module PingIt {
  import opened Wrappers
  import opened Text
  import opened SettingsModels
  import opened PingResult

  /** What one send does: a reply with status `Success` and its round-trip
      time, a reply with any other status, or a `PingException`. */
  datatype Reply = Success(rtt: int64) | NonSuccess | PingError

  /** One attempt of `PingHostAsync`: whether cancellation had been requested
      before it, and what its send does — a reply, or cancellation while the
      send was in flight (`OperationCanceledException`). */
  datatype AsyncAttempt = AsyncAttempt(cancelRequested: bool, send: SendOutcome)
  datatype SendOutcome = Replied(reply: Reply) | CanceledDuringSend

  /** An outcome of a probe: the value returned and how many sends were made. */
  datatype Run = Run(rtt: int64, sends: nat)

  // ---------------------------------------------------------------------------
  // PingHostAsync
  // ---------------------------------------------------------------------------

  /** The result of `PingHostAsync` from attempt `i` on. */
  function AsyncFrom(oracle: nat -> AsyncAttempt, attempts: int, i: nat): (r: Run)
    ensures i <= r.sends
    ensures r.sends <= if i < attempts then attempts else i
    decreases attempts - i
  {
    if i >= attempts then Run(-1, i)
    else if oracle(i).cancelRequested then Run(-1, i)
    else match oracle(i).send
      case CanceledDuringSend => Run(-1, i + 1)
      case Replied(Success(rtt)) => Run(rtt, i + 1)
      case Replied(_) => AsyncFrom(oracle, attempts, i + 1)
  }

  /** What `PingHostAsync` returns, with the sends it makes. */
  function AsyncPing(oracle: nat -> AsyncAttempt, attempts: int): Run {
    AsyncFrom(oracle, attempts, 0)
  }

  /** `PingHostAsync`: the round-trip time of the first successful attempt, or
      -1 after `attempts` failures or on cancellation. */
  method PingHostAsync(settings: PingSettings, oracle: nat -> AsyncAttempt) returns (rtt: int64, ghost sends: nat)
    ensures Run(rtt, sends) == AsyncPing(oracle, settings.attempts)
  {
    sends := 0;
    var attempt := 0;
    while attempt < settings.attempts
      invariant 0 <= attempt && (attempt <= settings.attempts || attempt == 0)
      invariant sends == attempt
      invariant AsyncFrom(oracle, settings.attempts, attempt) == AsyncPing(oracle, settings.attempts)
      decreases settings.attempts - attempt
    {
      var step := oracle(attempt);
      if step.cancelRequested {
        return -1, sends;
      }
      sends := sends + 1;
      if step.send.CanceledDuringSend? {
        return -1, sends;
      }
      if step.send.reply.Success? {
        return step.send.reply.rtt, sends;
      }
      attempt := attempt + 1;
    }
    return -1, sends;
  }

  // ---------------------------------------------------------------------------
  // PingHost
  // ---------------------------------------------------------------------------

  /** The result of the synchronous `PingHost` from attempt `i` on: a
      `PingException` leaves the loop at once. */
  function SyncFrom(oracle: nat -> Reply, attempts: int, host: string, i: nat): (r: (PingResult, nat))
    ensures i <= r.1
    ensures r.1 <= if i < attempts then attempts else i
    ensures r.0.hostName == Some(host)
    decreases attempts - i
  {
    if i >= attempts then (PingResult(false, 0, Some(host)), i)
    else match oracle(i)
      case Success(rtt) => (PingResult(true, rtt, Some(host)), i + 1)
      case PingError => (PingResult(false, 0, Some(host)), i + 1)
      case NonSuccess => SyncFrom(oracle, attempts, host, i + 1)
  }

  /** `PingHost`: the first successful reply, or a failed result when every
      attempt failed or a send threw. */
  method PingHost(settings: PingSettings, host: string, oracle: nat -> Reply) returns (result: PingResult, ghost sends: nat)
    ensures (result, sends) == SyncFrom(oracle, settings.attempts, host, 0)
  {
    sends := 0;
    var i := 0;
    while i < settings.attempts
      invariant 0 <= i && (i <= settings.attempts || i == 0)
      invariant sends == i
      invariant SyncFrom(oracle, settings.attempts, host, i) == SyncFrom(oracle, settings.attempts, host, 0)
      decreases settings.attempts - i
    {
      var reply := oracle(i);
      sends := sends + 1;
      if reply.PingError? {
        break;
      }
      if reply.Success? {
        return PingResult(true, reply.rtt, Some(host)), sends;
      }
      i := i + 1;
    }
    result := PingResult(false, 0, Some(host));
  }

  // ---------------------------------------------------------------------------
  // Properties
  // ---------------------------------------------------------------------------

  /** No attempt is cancelled beforehand and none is cancelled in flight
      among the first `k`, and none of their sends succeeds. */
  predicate FailedPlainly(oracle: nat -> AsyncAttempt, k: nat) {
    forall j: nat :: j < k ==>
      !oracle(j).cancelRequested && oracle(j).send.Replied? && !oracle(j).send.reply.Success?
  }

  /** At most `attempts` sends are made, none when `attempts <= 0`. */
  lemma AsyncSendsBounded(oracle: nat -> AsyncAttempt, attempts: int)
    ensures AsyncPing(oracle, attempts).sends <= Max(attempts, 0)
    ensures attempts <= 0 ==> AsyncPing(oracle, attempts) == Run(-1, 0)
  {
  }

  /** Failed attempts are skipped: the result from `0` is the result from `k`. */
  lemma {:induction false} AsyncSkipsFailures(oracle: nat -> AsyncAttempt, attempts: int, k: nat)
    requires k <= attempts && FailedPlainly(oracle, k)
    ensures AsyncPing(oracle, attempts) == AsyncFrom(oracle, attempts, k)
  {
    if k > 0 {
      AsyncSkipsFailures(oracle, attempts, k - 1);
      assert !oracle(k - 1).cancelRequested && oracle(k - 1).send.Replied?;
    }
  }

  /** The first success wins: after `k` plain failures, a successful attempt
      `k` returns its round-trip time, and no later attempt is made. */
  lemma AsyncFirstSuccess(oracle: nat -> AsyncAttempt, attempts: int, k: nat, rtt: int64)
    requires k < attempts && FailedPlainly(oracle, k)
    requires oracle(k) == AsyncAttempt(false, Replied(Success(rtt)))
    ensures AsyncPing(oracle, attempts) == Run(rtt, k + 1)
  {
    AsyncSkipsFailures(oracle, attempts, k);
  }

  /** When every attempt fails plainly, -1 is returned after exactly
      `attempts` sends. */
  lemma AsyncAllFail(oracle: nat -> AsyncAttempt, attempts: nat)
    requires FailedPlainly(oracle, attempts)
    ensures AsyncPing(oracle, attempts) == Run(-1, attempts)
  {
    AsyncSkipsFailures(oracle, attempts, attempts);
  }

  /** Cancellation requested before attempt `k`, after plain failures, gives
      -1 with no further send. */
  lemma AsyncCancelledBefore(oracle: nat -> AsyncAttempt, attempts: int, k: nat)
    requires k < attempts && FailedPlainly(oracle, k) && oracle(k).cancelRequested
    ensures AsyncPing(oracle, attempts) == Run(-1, k)
  {
    AsyncSkipsFailures(oracle, attempts, k);
  }

  /** Cancellation during the send of attempt `k` gives -1 with no further send. */
  lemma AsyncCancelledDuring(oracle: nat -> AsyncAttempt, attempts: int, k: nat)
    requires k < attempts && FailedPlainly(oracle, k)
    requires !oracle(k).cancelRequested && oracle(k).send.CanceledDuringSend?
    ensures AsyncPing(oracle, attempts) == Run(-1, k + 1)
  {
    AsyncSkipsFailures(oracle, attempts, k);
  }

  /** Anything but -1 is the round-trip time of some attempt whose send
      succeeded, and it is the last attempt made. */
  lemma {:induction false} AsyncResultFromSuccess(oracle: nat -> AsyncAttempt, attempts: int, i: nat)
    ensures var r := AsyncFrom(oracle, attempts, i);
      r.rtt == -1 || (0 < r.sends && oracle(r.sends - 1).send == Replied(Success(r.rtt)))
    decreases attempts - i
  {
    if i < attempts && !oracle(i).cancelRequested && oracle(i).send.Replied? && !oracle(i).send.reply.Success? {
      AsyncResultFromSuccess(oracle, attempts, i + 1);
    }
  }

  /** The synchronous loop: nothing fails more than `attempts` times. */
  lemma SyncSendsBounded(oracle: nat -> Reply, attempts: int, host: string)
    ensures SyncFrom(oracle, attempts, host, 0).1 <= Max(attempts, 0)
    ensures attempts <= 0 ==> SyncFrom(oracle, attempts, host, 0) == (PingResult(false, 0, Some(host)), 0)
  {
  }

  /** Non-success replies are skipped in the synchronous loop. */
  lemma {:induction false} SyncSkipsFailures(oracle: nat -> Reply, attempts: int, host: string, k: nat)
    requires k <= attempts && forall j: nat :: j < k ==> oracle(j) == NonSuccess
    ensures SyncFrom(oracle, attempts, host, 0) == SyncFrom(oracle, attempts, host, k)
  {
    if k > 0 {
      SyncSkipsFailures(oracle, attempts, host, k - 1);
      assert oracle(k - 1) == NonSuccess;
    }
  }

  /** A `PingException` on attempt `k` ends the synchronous loop with a failed
      result, however many attempts remain. */
  lemma SyncErrorStops(oracle: nat -> Reply, attempts: int, host: string, k: nat)
    requires k < attempts && (forall j: nat :: j < k ==> oracle(j) == NonSuccess) && oracle(k) == PingError
    ensures SyncFrom(oracle, attempts, host, 0) == (PingResult(false, 0, Some(host)), k + 1)
  {
    SyncSkipsFailures(oracle, attempts, host, k);
  }

  /** The synchronous loop succeeds exactly with the first successful reply. */
  lemma SyncFirstSuccess(oracle: nat -> Reply, attempts: int, host: string, k: nat)
    requires k < attempts && (forall j: nat :: j < k ==> oracle(j) == NonSuccess) && oracle(k).Success?
    ensures SyncFrom(oracle, attempts, host, 0) == (PingResult(true, oracle(k).rtt, Some(host)), k + 1)
  {
    SyncSkipsFailures(oracle, attempts, host, k);
  }

  /** A successful synchronous result carries the time of a successful reply;
      a failed one has time 0. */
  lemma {:induction false} SyncResultShape(oracle: nat -> Reply, attempts: int, host: string, i: nat)
    ensures var (r, sends) := SyncFrom(oracle, attempts, host, i);
      if r.isSuccess then 0 < sends && oracle(sends - 1) == Success(r.roundtripTime)
      else r.roundtripTime == 0
    decreases attempts - i
  {
    if i < attempts && oracle(i).NonSuccess? {
      SyncResultShape(oracle, attempts, host, i + 1);
    }
  }
}
