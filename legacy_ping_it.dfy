/** The older `PingIt` (PingIt.cs at the repository root): one send per probe
    with a fixed timeout. Its `PingResult` class computes the same quality and
    text as the record in MyInternetChecker/PingResult.cs, so it is modelled
    by the same datatype. The send is an oracle from host and timeout to what
    the send does. */
module LegacyPingIt {
  import opened Wrappers
  import opened Text
  import opened PingResult
  import opened PingIt

  /** The timeout of the single send, in milliseconds. */
  const SendTimeout: int := 1000

  /** `PingHost`: one send; success with the reply's round-trip time, or a
      failure with time 0 on any other status or a `PingException`. */
  method PingHost(host: string, send: (string, int) -> Reply) returns (result: PingResult)
    ensures result.isSuccess <==> send(host, SendTimeout).Success?
    ensures result.roundtripTime == if send(host, SendTimeout).Success? then send(host, SendTimeout).rtt else 0
    ensures result.hostName == Some(host)
  {
    var pingable := false;
    var roundtripTime: int64 := 0;
    var reply := send(host, SendTimeout);
    if !reply.PingError? {
      pingable := reply.Success?;
      if pingable {
        roundtripTime := reply.rtt;
      }
    }
    result := PingResult(pingable, roundtripTime, Some(host));
  }

  /** `PingHostSimple`: whether `PingHost` succeeded. */
  method PingHostSimple(host: string, send: (string, int) -> Reply) returns (ok: bool)
    ensures ok <==> send(host, SendTimeout).Success?
  {
    var result := PingHost(host, send);
    ok := result.isSuccess;
  }

  /** The legacy probe gives what the configurable synchronous loop of
      MyInternetChecker/PingIt.cs gives with a single attempt. */
  lemma SingleAttemptAgrees(host: string, send: (string, int) -> Reply)
    ensures var r := send(host, SendTimeout);
      SyncFrom((i: nat) => r, 1, host, 0).0 ==
        PingResult(r.Success?, if r.Success? then r.rtt else 0, Some(host))
  {
  }
}
