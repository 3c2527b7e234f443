/**
 * The proxy's routing table, an outside collaborator of the registry: the servers the proxy can
 * route players to, by name, each with the socket address it was registered with.
 */
module Proxy {

  /** An `InetSocketAddress`; its constructor only admits ports 0..65535. */
  datatype Endpoint = Endpoint(host: string, port: int)

  class RoutingTable {
    var servers: map<string, Endpoint>

    constructor (servers: map<string, Endpoint>)
      ensures this.servers == servers
    {
      this.servers := servers;
    }

    /**
     * `registerServer(new ServerInfo(name, address))`: a new name is routed to the address; the
     * same name and address again is accepted and changes nothing; a name already routed to
     * another address is refused with `IllegalArgumentException` and the table stays as it was.
     */
    method RegisterServer(name: string, address: Endpoint) returns (accepted: bool)
      modifies this
      ensures accepted <==> name !in old(servers) || old(servers)[name] == address
      ensures accepted ==> servers == old(servers)[name := address]
      ensures !accepted ==> servers == old(servers)
    {
      if name in servers && servers[name] != address {
        return false;
      }
      servers := servers[name := address];
      accepted := true;
    }

    /** The names of `getAllServers()`, each once, in no particular order. */
    method AllServerNames() returns (names: seq<string>)
      ensures forall n :: n in names <==> n in servers
      ensures forall i, j :: 0 <= i < j < |names| ==> names[i] != names[j]
    {
      names := [];
      var remaining := servers.Keys;
      while remaining != {}
        invariant remaining <= servers.Keys
        invariant forall n :: n in names <==> n in servers && n !in remaining
        invariant forall i, j :: 0 <= i < j < |names| ==> names[i] != names[j]
        decreases remaining
      {
        var n :| n in remaining;
        names := names + [n];
        remaining := remaining - {n};
      }
    }

    /** `unregisterServer(info)` for the server registered under `name`. */
    method UnregisterServer(name: string)
      modifies this
      ensures servers == old(servers) - {name}
    {
      servers := servers - {name};
    }
  }
}
