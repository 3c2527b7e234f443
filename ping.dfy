/**
 * `ServerPingUtil`: a TCP-connect liveness probe and its batch form over `"host:port"` strings.
 * The socket connect is an oracle, `connect(host, port, timeoutMs)`, saying how the attempt
 * ended; nothing here touches a network.
 */
module Ping {
  import opened Wrappers
  import opened JavaText
  import Models

  /** How `socket.connect` ended: the connection was made, or one of the failures the source catches. */
  datatype ConnectOutcome = Connected | TimedOut | IoFailure | OtherFailure

  type Connector = (string, int, int) -> ConnectOutcome

  const DefaultTimeoutMs := 5000

  predicate PortInRange(port: int) {
    0 <= port <= 65535
  }

  /**
   * `pingServer(host, port, timeoutMs)`: true only for an established connection. A port outside
   * 0..65535 (refused by `InetSocketAddress`) or a negative timeout (refused by `connect`) raises
   * an exception that is caught like every other failure.
   */
  function PingServer(host: string, port: int, timeoutMs: int, connect: Connector): (up: bool)
    ensures up <==> PortInRange(port) && timeoutMs >= 0 && connect(host, port, timeoutMs) == Connected
    ensures !PortInRange(port) ==> !up
  {
    if !PortInRange(port) || timeoutMs < 0 then false
    else match connect(host, port, timeoutMs)
      case Connected => true
      case TimedOut => false
      case IoFailure => false
      case OtherFailure => false
  }

  /** `pingServer(host, port)`: the same probe with the default timeout of five seconds. */
  function PingServerDefault(host: string, port: int, connect: Connector): (up: bool)
    ensures up == PingServer(host, port, 5000, connect)
  {
    PingServer(host, port, DefaultTimeoutMs, connect)
  }

  /** The result that `pingMultipleServers` reports for one `"host:port"` entry. */
  function PingEntry(entry: string, timeoutMs: int, connect: Connector): (up: bool)
    ensures up <==> |Split(entry, ':')| == 2 && ParseInt(Split(entry, ':')[1]).Some?
                    && PingServer(Split(entry, ':')[0], ParseInt(Split(entry, ':')[1]).value, timeoutMs, connect)
    ensures up ==> PortInRange(ParseInt(Split(entry, ':')[1]).value)
  {
    var parts := Split(entry, ':');
    if |parts| != 2 then false
    else match ParseInt(parts[1])
      case None => false
      case Some(port) => PingServer(parts[0], port, timeoutMs, connect)
  }

  /**
   * `pingMultipleServers(servers, timeoutMs)`: one probe per entry, started in a first loop and
   * collected in a second; both arrays are aligned with the input.
   */
  method PingMultipleServers(servers: seq<string>, timeoutMs: int, connect: Connector) returns (results: array<bool>)
    ensures results.Length == |servers|
    ensures forall i :: 0 <= i < |servers| ==> results[i] == PingEntry(servers[i], timeoutMs, connect)
  {
    var futures := new bool[|servers|];
    for i := 0 to |servers|
      invariant forall j :: 0 <= j < i ==> futures[j] == PingEntry(servers[j], timeoutMs, connect)
    {
      futures[i] := ProbeEntry(servers[i], timeoutMs, connect);
    }
    // Every future is complete once `allOf` is, and a probe never completes exceptionally,
    // so `get` hands back each probe's own result.
    results := new bool[futures.Length];
    for i := 0 to futures.Length
      invariant forall j :: 0 <= j < futures.Length ==> futures[j] == PingEntry(servers[j], timeoutMs, connect)
      invariant forall j :: 0 <= j < i ==> results[j] == futures[j]
    {
      results[i] := futures[i];
    }
  }

  /** The body of the first loop: split the entry, parse its port, probe; false for a malformed entry. */
  method ProbeEntry(entry: string, timeoutMs: int, connect: Connector) returns (up: bool)
    ensures up == PingEntry(entry, timeoutMs, connect)
  {
    var parts := Split(entry, ':');
    if |parts| == 2 {
      var port := ParseInt(parts[1]);
      if port.Some? {
        up := PingServer(parts[0], port.value, timeoutMs, connect);
      } else {
        up := false;
      }
    } else {
      up := false;
    }
  }

  /** An entry that does not split into exactly two parts is reported down, whatever the network. */
  lemma MalformedEntryIsDown(entry: string, timeoutMs: int, connect: Connector)
    requires |Split(entry, ':')| != 2
    ensures !PingEntry(entry, timeoutMs, connect)
  {
  }

  /** So is an entry whose port part is not an `int`. */
  lemma UnparsablePortIsDown(entry: string, timeoutMs: int, connect: Connector)
    requires |Split(entry, ':')| == 2 && ParseInt(Split(entry, ':')[1]) == None
    ensures !PingEntry(entry, timeoutMs, connect)
  {
  }

  /** `"h:"` splits into one part, so it is down even if `h` answers on every port. */
  lemma TrailingColonIsDown(timeoutMs: int, connect: Connector)
    ensures !PingEntry("h:", timeoutMs, connect)
  {
    SplitTrailingSeparator();
  }

  /** `":1"` splits into two parts, so it probes the empty host on port 1. */
  lemma LeadingColonProbesEmptyHost(timeoutMs: int, connect: Connector)
    ensures PingEntry(":1", timeoutMs, connect) == PingServer("", 1, timeoutMs, connect)
  {
    SplitLeadingSeparator();
    assert "1" == IntToString(1);
    ParseIntToString(1);
  }

  /**
   * A server's own `getAddress()` fed back to the batch probe pings that server's host and port,
   * as long as the host holds no colon.
   */
  lemma {:induction false} AddressRoundTrip(s: Models.Server, timeoutMs: int, connect: Connector)
    requires ':' !in s.host
    ensures PingEntry(Models.Address(s), timeoutMs, connect) == PingServer(s.host, s.port, timeoutMs, connect)
  {
    Models.AddressSplits(s);
  }

  /** One entry's result depends on that entry alone: changing another entry leaves it as it was. */
  lemma EntriesAreIndependent(servers: seq<string>, k: nat, other: string, timeoutMs: int, connect: Connector, i: nat)
    requires k < |servers| && i < |servers| && i != k
    ensures PingEntry(servers[k := other][i], timeoutMs, connect) == PingEntry(servers[i], timeoutMs, connect)
  {
  }
}
