/**
 * Connection establishment and the latency probe.
 *
 * The network is an oracle: `connects[k]` is the outcome of the k-th timed TCP
 * connect (true when it succeeded), and `tlsOk` says whether building the TLS
 * client (server name from the URL host, client connection from the embedded
 * root store) succeeds. When it does not, the original unwraps an error and the
 * calling thread panics; the model reports that as `Panicked`.
 */
module Connection {
  import opened Wrappers

  /** The retry counter starts here and the loop runs while it is positive. */
  const MaxAttempts: nat := 3

  /** The error text returned once every attempt has failed. */
  const ConnectFailed: string := "连接失败"

  /** The latency reported when the probe's connect fails (one second, in microseconds). */
  const PingSentinelMicros: nat := 1_000_000

  datatype Stream = Plain | Tls

  /** Outcome of establishing a connection; `attempts` is how many connects were made. */
  datatype Establishment =
    | Connected(stream: Stream, attempts: nat)
    | Failed(message: string, attempts: nat)
    | Panicked(attempts: nat)

  /** The first index in [from, limit) whose connect succeeds, if any. */
  function FirstSuccess(connects: seq<bool>, from: nat, limit: nat): (r: Option<nat>)
    requires limit <= |connects|
    ensures r.Some? ==> from <= r.value < limit && connects[r.value]
    ensures r.Some? ==> forall j :: from <= j < r.value ==> !connects[j]
    ensures r.None? ==> forall j :: from <= j < limit ==> !connects[j]
    decreases limit - from
  {
    if from >= limit then None
    else if connects[from] then Some(from)
    else FirstSuccess(connects, from + 1, limit)
  }

  /**
   * What establishing a connection yields: the first successful connect among
   * the first three ends the retries (wrapped in TLS when `ssl` is set), and
   * three failures give the fixed error message.
   */
  function Establish(connects: seq<bool>, ssl: bool, tlsOk: bool): (r: Establishment)
    requires |connects| >= MaxAttempts
    ensures 1 <= r.attempts <= MaxAttempts
    ensures r.Failed? <==> forall j :: 0 <= j < MaxAttempts ==> !connects[j]
    ensures r.Failed? ==> r.message == ConnectFailed && r.attempts == MaxAttempts
    ensures !r.Failed? ==> connects[r.attempts - 1]
    ensures !r.Failed? ==> forall j :: 0 <= j < r.attempts - 1 ==> !connects[j]
    ensures r.Panicked? <==> !r.Failed? && ssl && !tlsOk
    ensures r.Connected? ==> r.stream == (if ssl then Tls else Plain)
  {
    match FirstSuccess(connects, 0, MaxAttempts)
    case None => Failed(ConnectFailed, MaxAttempts)
    case Some(k) =>
      if !ssl then Connected(Plain, k + 1)
      else if tlsOk then Connected(Tls, k + 1)
      else Panicked(k + 1)
  }

  /**
   * The retry loop of `make_connection`: `retry` counts down from three; a
   * failed connect only decrements it, a successful one returns at once.
   */
  method MakeConnection(connects: seq<bool>, ssl: bool, tlsOk: bool) returns (r: Establishment)
    requires |connects| >= MaxAttempts
    ensures r == Establish(connects, ssl, tlsOk)
  {
    var retry := MaxAttempts;
    var attempt := 0;
    while retry > 0
      invariant 0 <= retry <= MaxAttempts && attempt == MaxAttempts - retry
      invariant FirstSuccess(connects, attempt, MaxAttempts) == FirstSuccess(connects, 0, MaxAttempts)
    {
      var ok := connects[attempt];
      attempt := attempt + 1;
      if ok {
        if !ssl {
          return Connected(Plain, attempt);
        }
        if !tlsOk {
          return Panicked(attempt);
        }
        return Connected(Tls, attempt);
      }
      retry := retry - 1;
    }
    assert FirstSuccess(connects, attempt, MaxAttempts).None?;
    return Failed(ConnectFailed, attempt);
  }

  /**
   * The latency probe: one connect, timed whatever its outcome. The elapsed
   * time is an input; the probe never fails, and a failed connect reports the
   * sentinel instead of the measurement.
   */
  function TcpPing(elapsedMicros: nat, connected: bool): (r: Result<nat, string>)
    ensures r.Ok?
    ensures connected ==> r.value == elapsedMicros
    ensures !connected ==> r.value == PingSentinelMicros
  {
    Ok(if connected then elapsedMicros else PingSentinelMicros)
  }

  /**
   * A connect that answered before the one-second mark is told apart from a
   * failure: the sentinel is reported exactly when the connect failed.
   */
  lemma PingSentinelMeansFailure(elapsedMicros: nat, connected: bool)
    requires elapsedMicros < PingSentinelMicros
    ensures TcpPing(elapsedMicros, connected).value == PingSentinelMicros <==> !connected
    ensures connected ==> TcpPing(elapsedMicros, connected).value < PingSentinelMicros
  {
  }
}
